/** Where the seeders of a file come from, in a live tracker and in a replay of its log. */
module Seeders {
  import opened Streams
  import opened Codec
  import opened Requests
  import opened TrackerSpec
  import opened TrackerInvariants
  import opened Agreement
  import opened Runs
  import opened Replay

  predicate HasFile(s: State, id: string, hash: string) {
    id in s.groups && hash in s.groups[id].files
  }

  function SeedersOf(s: State, id: string, hash: string): multiset<Endpoint> {
    if HasFile(s, id, hash) then s.groups[id].files[hash].seeders else multiset{}
  }

  /** The endpoint that a request announces for a file, when it passes the checks of a file request. */
  function Announces(s: State, c: Call, id: string, hash: string): Option<Endpoint> {
    match c.request
    case Upload(id', Described(endpoint, info, _)) =>
      if id' == id && info.hash == hash && FileGuard(s, c.origin, id).None? then Some(endpoint) else None
    case _ => None
  }

  function AsSet(e: Option<Endpoint>): multiset<Endpoint> {
    if e.Some? then multiset{e.value} else multiset{}
  }

  predicate KeepsFiles(s: State, s': State) {
    && (forall id :: id in s.groups ==> id in s'.groups && s'.groups[id].files == s.groups[id].files)
    && (forall id :: id in s'.groups && id !in s.groups ==> s'.groups[id].files == map[])
  }

  lemma OtherRequestsKeepFiles(s: State, c: Call, pick: Pick)
    requires !c.request.Upload?
    ensures KeepsFiles(s, Step(s, c, pick).0)
  {
    hide Requesters, Chosen, FileGuard, CreateUserStep, DeleteUserStep, LoginStep, LogoutStep;
    UserRequestsKeepGroups(s, c);
  }

  lemma KeptFilesKeepSeeders(s: State, s': State, id: string, hash: string)
    requires KeepsFiles(s, s')
    ensures SeedersOf(s', id, hash) == SeedersOf(s, id, hash)
    ensures HasFile(s', id, hash) <==> HasFile(s, id, hash)
  {
  }

  /** A described upload that passes the checks, on the files of its group. */
  lemma DescribedUpload(s: State, origin: Size, id: string, endpoint: Endpoint, info: FileInfo)
    requires FileGuard(s, origin, id).None?
    ensures var (s', out) := UploadStep(s, origin, id, Described(endpoint, info, true));
      && s'.groups.Keys == s.groups.Keys && id in s.groups
      && (forall id' :: id' in s.groups && id' != id ==> s'.groups[id'] == s.groups[id'])
      && s'.groups[id].files.Keys == s.groups[id].files.Keys + {info.hash}
      && (forall h :: h in s.groups[id].files && h != info.hash ==> s'.groups[id].files[h] == s.groups[id].files[h])
      && s'.groups[id].files[info.hash].seeders == SeedersOf(s, id, info.hash) + multiset{endpoint}
      && (out.Success() <==> !HasFile(s, id, info.hash))
  {
    var g := s.groups[id];
    if info.hash !in g.files {
      assert SeedersOf(s, id, info.hash) + multiset{endpoint} == multiset{endpoint};
    }
  }

  lemma RefusedUpload(s: State, origin: Size, id: string, args: UploadArgs)
    requires FileGuard(s, origin, id).Some? || !args.Described?
    ensures UploadStep(s, origin, id, args).0 == s
  {
  }

  lemma UploadSeeders(s: State, c: Call, unset: Size, id: string, hash: string)
    requires c.request.Upload?
    ensures var (s', out) := UploadStep(s, c.origin, c.request.groupId, WithSize(c.request.args, unset));
      && SeedersOf(s', id, hash) == SeedersOf(s, id, hash) + AsSet(Announces(s, c, id, hash))
      && (HasFile(s', id, hash) <==> HasFile(s, id, hash) || Announces(s, c, id, hash).Some?)
      && (Announces(s, c, id, hash).Some? ==> (out.Success() <==> !HasFile(s, id, hash)))
  {
    hide FileGuard, UploadStep;
    var id', args := c.request.groupId, WithSize(c.request.args, unset);
    var s' := UploadStep(s, c.origin, id', args).0;
    if args.Described? && FileGuard(s, c.origin, id').None? {
      DescribedUpload(s, c.origin, id', args.endpoint, args.info);
      assert args == Described(args.endpoint, args.info, true);
      if id' == id && args.info.hash == hash {
        assert Announces(s, c, id, hash) == Some(args.endpoint);
      } else {
        assert Announces(s, c, id, hash) == None;
        assert HasFile(s', id, hash) <==> HasFile(s, id, hash);
        assert SeedersOf(s', id, hash) == SeedersOf(s, id, hash);
      }
    } else {
      RefusedUpload(s, c.origin, id', args);
      assert Announces(s, c, id, hash) == None;
    }
  }

  /** An announcement adds one seeder; the first one of a file adds the file, and is the one that succeeds. */
  lemma StepSeeders(s: State, c: Call, pick: Pick, id: string, hash: string)
    ensures var (s', out) := Step(s, c, pick);
      && SeedersOf(s', id, hash) == SeedersOf(s, id, hash) + AsSet(Announces(s, c, id, hash))
      && (HasFile(s', id, hash) <==> HasFile(s, id, hash) || Announces(s, c, id, hash).Some?)
      && (Announces(s, c, id, hash).Some? ==> (out.Success() <==> !HasFile(s, id, hash)))
  {
    hide KeepsFiles, FileGuard, UploadStep, HasFile;
    if c.request.Upload? {
      UploadSeeders(s, c, pick.unset, id, hash);
    } else {
      OtherRequestsKeepFiles(s, c, pick);
      hide Step;
      KeptFilesKeepSeeders(s, Step(s, c, pick).0, id, hash);
    }
  }

  ghost function AnnouncedBy(s: State, e: Event, id: string, hash: string): Option<Endpoint> {
    match DecodeLine(e.line)
    case None => None
    case Some(c) => Announces(s, c, id, hash)
  }

  lemma LineSeeders(s: State, e: Event, id: string, hash: string)
    ensures var (s', out) := StepLine(s, e);
      && SeedersOf(s', id, hash) == SeedersOf(s, id, hash) + AsSet(AnnouncedBy(s, e, id, hash))
      && (HasFile(s', id, hash) <==> HasFile(s, id, hash) || AnnouncedBy(s, e, id, hash).Some?)
      && (AnnouncedBy(s, e, id, hash).Some? ==> (out.Success() <==> !HasFile(s, id, hash)))
  {
    hide Step, Announces, DecodeLine, HasFile;
    match DecodeLine(e.line)
    case None =>
    case Some(c) => StepSeeders(s, c, e.pick, id, hash);
  }

  lemma AnnouncementsAgree(s: State, t: State, e: Event, e': Event, id: string, hash: string)
    requires Agree(s, t) && e.line == e'.line
    ensures AnnouncedBy(s, e, id, hash) == AnnouncedBy(t, e', id, hash)
  {
    hide Agree, DecodeLine, FileGuard;
    match DecodeLine(e.line)
    case None =>
    case Some(c) => FileGuardAgrees(s, t, c.origin, id);
  }

  // ---- Runs ----

  /** Every endpoint announced for the file in the run. */
  ghost function Announced(run: seq<Event>, id: string, hash: string): multiset<Endpoint> {
    if run == [] then multiset{}
    else
      var n := |run| - 1;
      Announced(run[..n], id, hash) + AsSet(AnnouncedBy(After(run[..n]), run[n], id, hash))
  }

  ghost function FirstAnnounced(run: seq<Event>, id: string, hash: string): Option<Endpoint> {
    if run == [] then None
    else
      var n := |run| - 1;
      var first := FirstAnnounced(run[..n], id, hash);
      if first.Some? then first else AnnouncedBy(After(run[..n]), run[n], id, hash)
  }

  /** The seeders of a file are the endpoints announced for it, each as often as it was announced. */
  lemma {:induction false} SeedersAreAnnouncements(run: seq<Event>, id: string, hash: string)
    ensures SeedersOf(After(run), id, hash) == Announced(run, id, hash)
    ensures HasFile(After(run), id, hash) <==> FirstAnnounced(run, id, hash).Some?
    ensures HasFile(After(run), id, hash) ==>
      FirstAnnounced(run, id, hash).value in SeedersOf(After(run), id, hash)
  {
    hide StepLine, AnnouncedBy;
    if run != [] {
      var n := |run| - 1;
      SeedersAreAnnouncements(run[..n], id, hash);
      LineSeeders(After(run[..n]), run[n], id, hash);
    }
  }

  /** When every step succeeds, no file has been announced twice. */
  lemma {:induction false} OneSeederWhenAllSucceed(rep: seq<Event>, id: string, hash: string)
    requires LogOf(rep) == Lines(rep)
    ensures Announced(rep, id, hash) == AsSet(FirstAnnounced(rep, id, hash))
  {
    hide StepLine, AnnouncedBy;
    if rep != [] {
      var n := |rep| - 1;
      AllSucceedPrefix(rep);
      OneSeederWhenAllSucceed(rep[..n], id, hash);
      SeedersAreAnnouncements(rep[..n], id, hash);
      LineSeeders(After(rep[..n]), rep[n], id, hash);
    }
  }

  lemma AllSucceedPrefix(rep: seq<Event>)
    requires rep != [] && LogOf(rep) == Lines(rep)
    ensures Succeeds(rep, |rep| - 1)
    ensures LogOf(rep[..|rep| - 1]) == Lines(rep[..|rep| - 1])
  {
    hide StepLine, After, Succeeds;
    var n := |rep| - 1;
    LogIsNoLonger(rep[..n]);
    assert |LogOf(rep)| == n + 1;
    assert LogOf(rep) == LogOf(rep[..n]) + [rep[n].line];
    assert LogOf(rep)[..n] == LogOf(rep[..n]);
    assert Lines(rep)[..n] == Lines(rep[..n]);
  }

  lemma IdleAnnouncesNothing(s: State, e: Event, id: string, hash: string)
    requires IdleEvent(s, e)
    ensures AnnouncedBy(s, e, id, hash) == None
  {
    hide DecodeLine;
  }

  lemma {:induction false} FirstAnnouncementIsReplayed(run: seq<Event>, rep: seq<Event>, id: string, hash: string)
    requires Replayable(run) && Replays(rep, run)
    ensures FirstAnnounced(rep, id, hash) == FirstAnnounced(run, id, hash)
    decreases |run|
  {
    hide StepLine, AnnouncedBy, Agree, DeterminedEvent, IdleEvent;
    if run == [] {
      assert rep == [];
    } else {
      var n := |run| - 1;
      var before, e := run[..n], run[n];
      PrefixReplayable(run, n);
      SeedersAreAnnouncements(before, id, hash);
      LineSeeders(After(before), e, id, hash);
      if Recorded(run, n) {
        SplitLast(rep, LogOf(before), e.line);
        var m := |LogOf(before)|;
        FirstAnnouncementIsReplayed(before, rep[..m], id, hash);
        ReplayIsFaithful(before, rep[..m]);
        AnnouncementsAgree(After(before), After(rep[..m]), e, rep[m], id, hash);
      } else {
        FirstAnnouncementIsReplayed(before, rep, id, hash);
        if Succeeds(run, n) {
          IdleAnnouncesNothing(After(before), e, id, hash);
        }
      }
    }
  }

  /** In a replay each file has exactly one seeder: the first that was announced to the live tracker, which
      still counts it among its seeders. */
  lemma {:induction false} ReplayKeepsFirstSeeder(run: seq<Event>, rep: seq<Event>, id: string, hash: string)
    requires Replayable(run) && Replays(rep, run)
    ensures HasFile(After(rep), id, hash) <==> HasFile(After(run), id, hash)
    ensures HasFile(After(rep), id, hash) ==>
      && FirstAnnounced(run, id, hash).Some?
      && SeedersOf(After(rep), id, hash) == multiset{FirstAnnounced(run, id, hash).value}
      && FirstAnnounced(run, id, hash).value in SeedersOf(After(run), id, hash)
  {
    ReplayIsFaithful(run, rep);
    FirstAnnouncementIsReplayed(run, rep, id, hash);
    SeedersAreAnnouncements(run, id, hash);
    SeedersAreAnnouncements(rep, id, hash);
    OneSeederWhenAllSucceed(rep, id, hash);
  }

  // ---- When a replay gives the seeders too ----

  /** A member describes a file that its group has. */
  ghost predicate AddsSeederEvent(s: State, e: Event) {
    match DecodeLine(e.line)
    case None => false
    case Some(c) => AddsSeeder(s, c)
  }

  ghost predicate NeverReuploads(run: seq<Event>) {
    forall k :: 0 <= k < |run| ==> !AddsSeederEvent(After(run[..k]), run[k])
  }

  lemma AddsSeederIff(s: State, e: Event, id: string, hash: string)
    requires AnnouncedBy(s, e, id, hash).Some?
    ensures AddsSeederEvent(s, e) <==> HasFile(s, id, hash)
  {
    hide DecodeLine;
  }

  lemma AddedSeeder(s: State, e: Event) returns (id: string, hash: string)
    requires AddsSeederEvent(s, e)
    ensures HasFile(s, id, hash) && AnnouncedBy(s, e, id, hash).Some?
  {
    hide DecodeLine;
    var c := DecodeLine(e.line).value;
    id, hash := c.request.groupId, c.request.args.info.hash;
  }

  /** Without a re-upload, no file has been announced twice. */
  lemma {:induction false} OneSeederWithoutReuploads(run: seq<Event>, id: string, hash: string)
    requires NeverReuploads(run)
    ensures Announced(run, id, hash) == AsSet(FirstAnnounced(run, id, hash))
  {
    hide StepLine, AnnouncedBy, AddsSeederEvent, HasFile;
    if run != [] {
      var n := |run| - 1;
      assert NeverReuploads(run[..n]) by {
        assert forall k :: 0 <= k < n ==> run[..n][..k] == run[..k];
      }
      OneSeederWithoutReuploads(run[..n], id, hash);
      SeedersAreAnnouncements(run[..n], id, hash);
      if AnnouncedBy(After(run[..n]), run[n], id, hash).Some? {
        AddsSeederIff(After(run[..n]), run[n], id, hash);
      }
    }
  }

  /** A re-uploaded file has at least two seeders for good. */
  lemma ReuploadStays(run: seq<Event>, k: nat, id: string, hash: string)
    requires k < |run| && HasFile(After(run[..k]), id, hash)
    requires AnnouncedBy(After(run[..k]), run[k], id, hash).Some?
    ensures |SeedersOf(After(run), id, hash)| >= 2
  {
    hide StepLine, AnnouncedBy, After;
    var s, s' := After(run[..k]), After(run[..k + 1]);
    assert run[..k + 1] == run[..k] + [run[k]];
    AfterSnoc(run[..k], run[k]);
    SeedersAreAnnouncements(run[..k], id, hash);
    LineSeeders(s, run[k], id, hash);
    var first := FirstAnnounced(run[..k], id, hash).value;
    assert SeedersOf(s, id, hash) == (SeedersOf(s, id, hash) - multiset{first}) + multiset{first};
    RunGrows(run, k + 1);
    assert GroupGrows(s'.groups[id], After(run).groups[id]);
    Larger(SeedersOf(s', id, hash), SeedersOf(After(run), id, hash));
  }

  lemma Larger(a: multiset<Endpoint>, b: multiset<Endpoint>)
    requires a <= b
    ensures |a| <= |b|
  {
    assert b == a + (b - a);
  }

  lemma EqualUpToSeeders(s: State, t: State)
    requires Agree(s, t) && forall id, hash :: SeedersOf(s, id, hash) == SeedersOf(t, id, hash)
    ensures s == t
  {
    forall id | id in s.groups ensures s.groups[id] == t.groups[id] {
      var g, g' := s.groups[id], t.groups[id];
      assert SameGroup(g, g');
      forall h | h in g.files ensures g.files[h] == g'.files[h] {
        assert SeedersOf(s, id, h) == SeedersOf(t, id, h);
      }
      assert g.files == g'.files;
    }
    assert s.groups == t.groups;
  }

  /** A replay gives the whole state, seeders included, exactly if nobody ever uploaded a file that its group had. */
  lemma ReplayEqualIff(run: seq<Event>, rep: seq<Event>)
    requires Replayable(run) && Replays(rep, run)
    ensures After(run) == After(rep) <==> NeverReuploads(run)
  {
    hide Replayable, Replays, Agree, After, Announced, FirstAnnounced, SeedersOf, HasFile, AddsSeederEvent, AnnouncedBy;
    ReplayIsFaithful(run, rep);
    if NeverReuploads(run) {
      forall id, hash ensures SeedersOf(After(run), id, hash) == SeedersOf(After(rep), id, hash) {
        OneSeederWithoutReuploads(run, id, hash);
        OneSeederWhenAllSucceed(rep, id, hash);
        SeedersAreAnnouncements(run, id, hash);
        SeedersAreAnnouncements(rep, id, hash);
        FirstAnnouncementIsReplayed(run, rep, id, hash);
      }
      EqualUpToSeeders(After(run), After(rep));
    } else {
      var k :| 0 <= k < |run| && AddsSeederEvent(After(run[..k]), run[k]);
      var id, hash := AddedSeeder(After(run[..k]), run[k]);
      ReuploadStays(run, k, id, hash);
      SeedersAreAnnouncements(rep, id, hash);
      OneSeederWhenAllSucceed(rep, id, hash);
    }
  }
}
