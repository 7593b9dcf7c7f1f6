/** Who may announce, fetch and list the files of a group, and what each of them gets. */
module FileRights {
  import opened Streams
  import opened Codec
  import opened Requests
  import opened TrackerSpec
  import opened TrackerInvariants
  import opened Runs
  import opened Histories
  import opened Membership
  import opened Seeders

  predicate AboutFiles(c: Call) {
    c.request.ListFiles? || c.request.Upload? || c.request.Download?
  }

  /** The origin has a session of a user who owns the group or is one of its members. */
  predicate Entitled(s: State, origin: Size, id: string) {
    && origin in s.sessions && id in s.groups
    && (s.sessions[origin] == s.groups[id].owner || s.sessions[origin] in s.groups[id].users)
  }

  lemma EntitledIsUnrefused(s: State, origin: Size, id: string)
    ensures Entitled(s, origin, id) <==> FileGuard(s, origin, id).None?
  {
  }

  /** Without a session, a group and a membership nothing changes and nothing is told but which of them is missing. */
  lemma StrangersGetNothing(s: State, c: Call, pick: Pick)
    requires AboutFiles(c) && !Entitled(s, c.origin, c.request.groupId)
    ensures Step(s, c, pick).0 == s && !Step(s, c, pick).1.Success()
    ensures Step(s, c, pick).1 == Done(false, Say(
      if c.origin !in s.sessions then LOGIN_REQUIRED
      else if c.request.groupId !in s.groups then "Group not found\n"
      else "You are not a member of this group\n"))
  {
  }

  /** A member's described upload of a new file is stored with that endpoint as its only seeder; one of a known file
      adds the endpoint; the rest of the tracker stays as it is. */
  lemma MembersUpload(s: State, c: Call, pick: Pick)
    requires c.request.Upload? && c.request.args.Described? && Entitled(s, c.origin, c.request.groupId)
    ensures var (id, args, files) := (c.request.groupId, c.request.args, s.groups[c.request.groupId].files);
      var (s', out) := Step(s, c, pick);
      var h := args.info.hash;
      && s'.users == s.users && s'.sessions == s.sessions && s'.created == s.created
      && s'.groups.Keys == s.groups.Keys
      && (forall other :: other in s.groups && other != id ==> s'.groups[other] == s.groups[other])
      && s'.groups[id].(files := files) == s.groups[id]
      && s'.groups[id].files.Keys == files.Keys + {h}
      && (forall h' :: h' in files && h' != h ==> s'.groups[id].files[h'] == files[h'])
      && (h !in files ==>
            && out == Done(true, Say("File uploaded\n"))
            && s'.groups[id].files[h].seeders == multiset{args.endpoint}
            && s'.groups[id].files[h].info == (if args.sized then args.info else args.info.(size := pick.unset)))
      && (h in files ==>
            && out == Done(false, Say("File already exists. Added you as a seeder\n"))
            && s'.groups[id].files[h] ==
                 files[h].(seeders := files[h].seeders[args.endpoint := files[h].seeders[args.endpoint] + 1]))
  {
    var files, h, e := s.groups[c.request.groupId].files, c.request.args.info.hash, c.request.args.endpoint;
    if h in files {
      assert files[h].seeders + multiset{e} == files[h].seeders[e := files[h].seeders[e] + 1];
    }
  }

  /** Endpoints that cannot be parsed change nothing: a text that is none is refused, a port out of any range leaves
      the handler. */
  lemma BadUploadsChangeNothing(s: State, c: Call, pick: Pick)
    requires c.request.Upload? && !c.request.args.Described? && Entitled(s, c.origin, c.request.groupId)
    ensures Step(s, c, pick) ==
      (s, if c.request.args.Rejected? then Done(false, Say("Invalid request\n")) else Escaped)
  {
  }

  /** A member's download finds some file of that name exactly if the group has one. */
  lemma MembersDownload(s: State, c: Call, pick: Pick)
    requires c.request.Download? && Entitled(s, c.origin, c.request.groupId)
    ensures Step(s, c, pick).0 == s && Step(s, c, pick).1.Done?
    ensures var (out, files) := (Step(s, c, pick).1, s.groups[c.request.groupId].files);
      out.reply.Found? <==> exists h :: h in files && files[h].info.name == c.request.fileName
    ensures var (out, files) := (Step(s, c, pick).1, s.groups[c.request.groupId].files);
      if out.reply.Found? then
        && out.success && out.reply.groupId == c.request.groupId
        && out.reply.file in files.Values && out.reply.file.info.name == c.request.fileName
      else out == Done(false, Say("0 File not found\n"))
  {
    var g, name := s.groups[c.request.groupId], c.request.fileName;
    assert FileGuard(s, c.origin, c.request.groupId).None?;
    NamedIff(g, name);
    if Named(g, name) != {} {
      var h := ChosenFile(Named(g, name), pick.file);
      assert h in Named(g, name);
      assert Step(s, c, pick).1 == Done(true, Found(g.files[h], c.request.groupId));
    } else {
      assert Step(s, c, pick).1 == Done(false, Say("0 File not found\n"));
    }
  }

  lemma NamedIff(g: GroupState, name: string)
    ensures Named(g, name) != {} <==> exists h :: h in g.files && g.files[h].info.name == name
  {
    if h :| h in g.files && g.files[h].info.name == name {
      assert h in Named(g, name);
    }
  }

  /** A member's listing has the description of every file and no other. */
  lemma MembersList(s: State, c: Call, pick: Pick)
    requires c.request.ListFiles? && Entitled(s, c.origin, c.request.groupId)
    ensures var files := s.groups[c.request.groupId].files;
      var (s', out) := Step(s, c, pick);
      && s' == s && out.Done? && !out.success && out.reply.Files?
      && forall info :: info in out.reply.infos <==> exists h :: h in files && files[h].info == info
  {
  }

  // ---- Over whole runs ----

  /** The user founded the group, or was admitted to it and has not left since. */
  ghost predicate HasRights(run: seq<Event>, id: string, u: User) {
    || Stands(Flags(run, Foundation(id, u)), Flags(run, Never()))
    || Stands(Flags(run, AdmissionOf(id, u)), Flags(run, LeaveOf(id, u)))
  }

  /** The user logged in from there and has not logged out since. */
  ghost predicate LoggedIn(run: seq<Event>, origin: Size, u: User) {
    Stands(Flags(run, LoginOf(origin, u)), Flags(run, LogoutOf(origin)))
  }

  lemma EntitledMeans(s: State, origin: Size, id: string, u: User)
    requires InSession(s, origin, u)
    ensures Entitled(s, origin, id) <==> Owns(s, id, u) || IsUser(s, id, u)
  {
  }

  lemma EntitledIff(run: seq<Event>, origin: Size, id: string)
    ensures Entitled(After(run), origin, id) <==> exists u :: LoggedIn(run, origin, u) && HasRights(run, id, u)
  {
    hide After, Stands, Flags, Foundation, Never, AdmissionOf, LeaveOf, LoginOf, LogoutOf, Owns, IsUser;
    var s := After(run);
    if Entitled(s, origin, id) {
      var u := s.sessions[origin];
      SessionsAreHistory(run, origin, u);
      GroupsAreHistory(run, id, u);
      MembershipIsHistory(run, id, u);
      EntitledMeans(s, origin, id, u);
      assert LoggedIn(run, origin, u) && HasRights(run, id, u);
    }
    if u :| LoggedIn(run, origin, u) && HasRights(run, id, u) {
      SessionsAreHistory(run, origin, u);
      GroupsAreHistory(run, id, u);
      MembershipIsHistory(run, id, u);
      EntitledMeans(s, origin, id, u);
    }
  }

  /** An upload of a file of that hash to the group, by somebody entitled, that names the endpoint. */
  ghost predicate Offers(s: State, ev: Event, id: string, hash: string, e: Endpoint) {
    match DecodeLine(ev.line)
    case Some(Call(origin, Upload(id', Described(e', info, _)))) =>
      id' == id && info.hash == hash && e' == e && Entitled(s, origin, id)
    case _ => false
  }

  lemma OffersIff(s: State, ev: Event, id: string, hash: string, e: Endpoint)
    ensures Offers(s, ev, id, hash, e) <==> AnnouncedBy(s, ev, id, hash) == Some(e)
  {
    hide DecodeLine;
  }

  ghost predicate OfferedAt(run: seq<Event>, k: nat, id: string, hash: string, e: Endpoint)
    requires k < |run|
  {
    Offers(After(run[..k]), run[k], id, hash, e)
  }

  lemma OfferedBefore(run: seq<Event>, n: nat, id: string, hash: string, e: Endpoint)
    requires n <= |run|
    ensures forall k: nat :: k < n ==> (OfferedAt(run[..n], k, id, hash, e) <==> OfferedAt(run, k, id, hash, e))
  {
    hide Offers, After;
    assert forall k: nat :: k < n ==> run[..n][..k] == run[..k] && run[..n][k] == run[k];
  }

  /** An endpoint is a seeder of a file exactly if somebody who was entitled at that time once uploaded it from
      there. */
  lemma {:induction false} SeedersAreOffered(run: seq<Event>, id: string, hash: string, e: Endpoint)
    ensures e in SeedersOf(After(run), id, hash) <==> exists k: nat :: k < |run| && OfferedAt(run, k, id, hash, e)
  {
    hide StepLine, Offers, AnnouncedBy, SeedersOf, OfferedAt;
    if run == [] {
      NobodySeedsYet(id, hash);
    } else {
      var n := |run| - 1;
      var s, ev := After(run[..n]), run[n];
      SeedersAreOffered(run[..n], id, hash, e);
      OfferedBefore(run, n, id, hash, e);
      LineSeeders(s, ev, id, hash);
      OffersIff(s, ev, id, hash, e);
      assert OfferedAt(run, n, id, hash, e) <==> Offers(s, ev, id, hash, e) by {
        OfferedLast(run, id, hash, e);
      }
      if k: nat :| k < n && OfferedAt(run[..n], k, id, hash, e) {
        assert OfferedAt(run, k, id, hash, e);
      }
    }
  }

  lemma OfferedLast(run: seq<Event>, id: string, hash: string, e: Endpoint)
    requires run != []
    ensures var n := |run| - 1; OfferedAt(run, n, id, hash, e) <==> Offers(After(run[..n]), run[n], id, hash, e)
  {
    hide Offers, After;
  }

  lemma NobodySeedsYet(id: string, hash: string)
    ensures SeedersOf(After([]), id, hash) == multiset{}
  {
  }

  lemma OfferedByRights(run: seq<Event>, ev: Event, id: string, hash: string, e: Endpoint) returns (u: User)
    requires Offers(After(run), ev, id, hash, e)
    ensures DecodeLine(ev.line).Some? && LoggedIn(run, DecodeLine(ev.line).value.origin, u) && HasRights(run, id, u)
  {
    hide DecodeLine, Entitled, After, LoggedIn, HasRights;
    var origin := DecodeLine(ev.line).value.origin;
    EntitledIff(run, origin, id);
    u :| LoggedIn(run, origin, u) && HasRights(run, id, u);
  }

  /** Whoever announced a seeder was logged in where the upload came from, and had founded the group or was then a
      member of it. */
  lemma SeedersHadRights(run: seq<Event>, id: string, hash: string, e: Endpoint) returns (k: nat, u: User)
    requires e in SeedersOf(After(run), id, hash)
    ensures k < |run| && OfferedAt(run, k, id, hash, e)
    ensures DecodeLine(run[k].line).Some? && LoggedIn(run[..k], DecodeLine(run[k].line).value.origin, u)
    ensures HasRights(run[..k], id, u)
  {
    hide DecodeLine, Offers, After, LoggedIn, HasRights, SeedersOf;
    SeedersAreOffered(run, id, hash, e);
    k :| k < |run| && OfferedAt(run, k, id, hash, e);
    u := OfferedByRights(run[..k], run[k], id, hash, e);
  }

  predicate GivesNoFiles(out: Outcome) {
    out.Done? ==> !out.reply.Found? && !out.reply.Files?
  }

  lemma UsersGiveNoFiles(s: State, origin: Size)
    ensures forall name, password :: GivesNoFiles(CreateUserStep(s, name, password).1)
    ensures forall name :: GivesNoFiles(DeleteUserStep(s, name).1)
    ensures forall name, password :: GivesNoFiles(LoginStep(s, origin, name, password).1)
    ensures GivesNoFiles(LogoutStep(s, origin).1)
  {
  }

  lemma GroupsGiveNoFiles(s: State, origin: Size, id: string)
    ensures GivesNoFiles(CreateGroupStep(s, origin, id).1) && GivesNoFiles(JoinStep(s, origin, id).1)
    ensures GivesNoFiles(LeaveStep(s, origin, id).1) && GivesNoFiles(ListRequestsStep(s, origin, id).1)
    ensures forall name, pick :: GivesNoFiles(AcceptStep(s, origin, id, name, pick).1)
  {
    hide Requesters, Chosen, HasMember, WithGroup, Admit;
  }

  lemma OthersGiveNoFiles(s: State, c: Call, pick: Pick)
    requires !AboutFiles(c)
    ensures GivesNoFiles(Step(s, c, pick).1)
  {
    hide CreateUserStep, DeleteUserStep, LoginStep, LogoutStep, CreateGroupStep, JoinStep, LeaveStep, AcceptStep,
      ListRequestsStep, UploadStep, DownloadStep, ListFilesStep;
    UsersGiveNoFiles(s, c.origin);
    match c.request
    case CreateGroup(id) => GroupsGiveNoFiles(s, c.origin, id);
    case JoinGroup(id) => GroupsGiveNoFiles(s, c.origin, id);
    case LeaveGroup(id) => GroupsGiveNoFiles(s, c.origin, id);
    case ListRequests(id) => GroupsGiveNoFiles(s, c.origin, id);
    case AcceptRequest(id, _) => GroupsGiveNoFiles(s, c.origin, id);
    case _ =>
  }

  /** Seeders and descriptions are given only to somebody who is logged in and founded the group or is then a member
      of it. */
  lemma FilesReachMembersOnly(run: seq<Event>, ev: Event) returns (c: Call, u: User)
    requires var out := StepLine(After(run), ev).1; out.Done? && (out.reply.Found? || out.reply.Files?)
    ensures DecodeLine(ev.line) == Some(c) && AboutFiles(c)
    ensures LoggedIn(run, c.origin, u) && HasRights(run, c.request.groupId, u)
  {
    hide DecodeLine, Step, After, LoggedIn, HasRights, Entitled;
    c := DecodeLine(ev.line).value;
    if !AboutFiles(c) {
      OthersGiveNoFiles(After(run), c, ev.pick);
    } else if !Entitled(After(run), c.origin, c.request.groupId) {
      StrangersGetNothing(After(run), c, ev.pick);
    }
    EntitledIff(run, c.origin, c.request.groupId);
    u :| LoggedIn(run, c.origin, u) && HasRights(run, c.request.groupId, u);
  }
}
