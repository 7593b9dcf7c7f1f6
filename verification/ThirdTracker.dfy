/** A third tracker that joins from one that itself joined: it gets only what the second one recorded itself. */
module ThirdTracker {
  import opened Requests
  import opened TrackerSpec
  import opened Agreement
  import opened Runs
  import opened Replay
  import opened Seeders
  import opened Renaming
  import opened Newcomers

  /** What a tracker recorded itself after it had executed `rep` to join. */
  ghost function OwnLog(rep: seq<Event>, later: seq<Event>): seq<string> {
    if later == [] then []
    else
      var n := |later| - 1;
      var s := After(rep + later[..n]);
      OwnLog(rep, later[..n]) + if StepLine(s, later[n]).1.Success() && later[n].told then [later[n].line] else []
  }

  /** As far as the tracker was replayable after it had joined. */
  ghost predicate OwnReplayable(rep: seq<Event>, later: seq<Event>) {
    forall k :: 0 <= k < |later| ==> ReplayableEvent(After(rep + later[..k]), later[k])
  }

  /** The second tracker executed `rep` to join and went on with `later`; the third executes what the second recorded
      itself. */
  ghost predicate JoinsFromJoined(rep: seq<Event>, later: seq<Event>, third: seq<Event>) {
    OwnReplayable(rep, later) && Lines(third) == OwnLog(rep, later)
  }

  lemma {:induction false} OwnLogIsTheRest(rep: seq<Event>, later: seq<Event>)
    ensures LogOf(rep + later) == LogOf(rep) + OwnLog(rep, later)
    decreases |later|
  {
    hide StepLine, After, LogOf;
    if later == [] {
      assert rep + later == rep;
    } else {
      var n := |later| - 1;
      var before := rep + later[..n];
      OwnLogIsTheRest(rep, later[..n]);
      AfterSnoc(before, later[n]);
      assert rep + later == before + [later[n]];
    }
  }

  // ---- Who first uploaded a file ----

  ghost function AnnounceLine(first: Announcers, s: State, e: Event): Announcers {
    match DecodeLine(e.line)
    case None => first
    case Some(c) => Announce(first, s, c)
  }

  /** The user of the session that made the one successful upload of each file. */
  ghost function FirstUploads(run: seq<Event>): Announcers {
    if run == [] then map[]
    else
      var n := |run| - 1;
      AnnounceLine(FirstUploads(run[..n]), After(run[..n]), run[n])
  }

  lemma AddsFileIff(s: State, c: Call, pick: Pick)
    ensures AddsFile(s, c) <==> c.request.Upload? && Step(s, c, pick).1.Success()
  {
    hide AddFile, AddSeeder, WithGroup;
  }

  lemma AnnouncesIffAdds(s: State, c: Call, id: string, hash: string)
    ensures Announces(s, c, id, hash).Some? && !HasFile(s, id, hash) <==>
      AddsFile(s, c) && c.request.groupId == id && c.request.args.info.hash == hash
  {
  }

  /** Every file of every group has exactly one. */
  lemma {:induction false} FirstUploadsAreFiles(run: seq<Event>, id: string, hash: string)
    ensures (id, hash) in FirstUploads(run) <==> HasFile(After(run), id, hash)
  {
    hide StepLine, DecodeLine, Announces, HasFile, AddsFile;
    if run == [] {
      NoFilesYet(id, hash);
    } else {
      var n := |run| - 1;
      FirstUploadsAreFiles(run[..n], id, hash);
      LineSeeders(After(run[..n]), run[n], id, hash);
      match DecodeLine(run[n].line)
      case None =>
      case Some(c) => AnnouncesIffAdds(After(run[..n]), c, id, hash);
    }
  }

  lemma NoFilesYet(id: string, hash: string)
    ensures !HasFile(EMPTY, id, hash)
  {
  }

  // ---- What the third tracker has ----

  lemma NoNewcomersYet(rep: seq<Event>, first: Announcers)
    ensures Part(After(rep), EMPTY, After(rep).created, first)
  {
    hide After, Creations;
    RunKnowsItsUsers(rep);
  }

  lemma RecordedKeepsPart(s: State, t: State, e: Event, e': Event, from: nat, first: Announcers)
    requires Part(s, t, from, first) && ReplayableEvent(s, e) && StepLine(s, e).1.Success() && e.line == e'.line
    ensures Part(StepLine(s, e).0, StepLine(t, e').0, from, AnnounceLine(first, s, e))
  {
    hide Step, Part, Determined, Announce, DecodeLine;
    match DecodeLine(e.line)
    case None =>
    case Some(c) => StepKeepsPart(s, t, c, e.pick, e'.pick, from, first);
  }

  lemma UnrecordedKeepsPart(s: State, t: State, e: Event, from: nat, first: Announcers)
    requires Part(s, t, from, first) && ReplayableEvent(s, e) && !(StepLine(s, e).1.Success() && e.told)
    ensures Part(StepLine(s, e).0, t, from, AnnounceLine(first, s, e))
  {
    hide Step, Part, Agree, DeterminedEvent, DecodeLine, AddsFile;
    UnrecordedIsInvisible(s, e);
    AgreeingPart(s, StepLine(s, e).0, t, from, first);
    match DecodeLine(e.line)
    case None =>
    case Some(c) => AddsFileIff(s, c, e.pick);
  }

  /** The last event of the second tracker is replayable, and the third executes it last if it was recorded. */
  lemma LastEvent(rep: seq<Event>, later: seq<Event>, third: seq<Event>)
    requires JoinsFromJoined(rep, later, third) && later != []
    ensures var (n, m) := (|later| - 1, |third| - 1);
      var (s, e) := (After(rep + later[..n]), later[n]);
      && ReplayableEvent(s, e)
      && if StepLine(s, e).1.Success() && e.told
         then m >= 0 && third[m].line == e.line && JoinsFromJoined(rep, later[..n], third[..m])
         else JoinsFromJoined(rep, later[..n], third)
  {
    hide StepLine, ReplayableEvent, After;
    var n, m := |later| - 1, |third| - 1;
    forall k | 0 <= k < n ensures ReplayableEvent(After(rep + later[..n][..k]), later[..n][k]) {
      assert later[..n][..k] == later[..k];
    }
    if StepLine(After(rep + later[..n]), later[n]).1.Success() && later[n].told {
      assert |Lines(third)| == m + 1;
      assert Lines(third)[m] == later[n].line;
      assert Lines(third[..m]) == Lines(third)[..m];
    }
  }

  lemma FirstUploadsSnoc(run: seq<Event>, e: Event)
    ensures FirstUploads(run + [e]) == AnnounceLine(FirstUploads(run), After(run), e)
  {
    hide AnnounceLine, After;
    assert (run + [e])[..|run|] == run;
  }

  /** Whatever the second tracker met when it joined, and whatever either meets on the way: the third has exactly the
      accounts, sessions, groups, members, requesters and files of the second that stem from users created there since
      it had joined. */
  lemma {:induction false} ThirdTrackerHasNewcomers(rep: seq<Event>, later: seq<Event>, third: seq<Event>)
    requires JoinsFromJoined(rep, later, third)
    ensures Part(After(rep + later), After(third), After(rep).created, FirstUploads(rep + later))
    decreases |later|
  {
    hide StepLine, Part, ReplayableEvent, AnnounceLine, After, JoinsFromJoined, FirstUploads, LogOf;
    var from := After(rep).created;
    if later == [] {
      NothingRun(rep, third);
      assert rep + later == rep;
      NoNewcomersYet(rep, FirstUploads(rep));
    } else {
      var n, m := |later| - 1, |third| - 1;
      var before, e := rep + later[..n], later[n];
      LastEvent(rep, later, third);
      assert rep + later == before + [e];
      AfterSnoc(before, e);
      FirstUploadsSnoc(before, e);
      if StepLine(After(before), e).1.Success() && e.told {
        assert third == third[..m] + [third[m]];
        AfterSnoc(third[..m], third[m]);
        ThirdTrackerHasNewcomers(rep, later[..n], third[..m]);
        RecordedKeepsPart(After(before), After(third[..m]), e, third[m], from, FirstUploads(before));
      } else {
        ThirdTrackerHasNewcomers(rep, later[..n], third);
        UnrecordedKeepsPart(After(before), After(third), e, from, FirstUploads(before));
      }
    }
  }

  lemma NothingRun(rep: seq<Event>, third: seq<Event>)
    requires JoinsFromJoined(rep, [], third)
    ensures After(third) == EMPTY
  {
    hide StepLine;
    assert |Lines(third)| == 0;
  }

  // ---- When that is everything ----

  /** Of what the second tracker took over when it joined, no account, session, group, member or requester is left,
      and every file was first uploaded by a user created since. */
  ghost predicate NothingTakenOver(rep: seq<Event>, later: seq<Event>) {
    NothingOlder(After(rep + later), After(rep).created, FirstUploads(rep + later))
  }

  /** The third tracker is like the second, seeders and the numbering of users apart, exactly if nothing that was taken
      over is left there. */
  lemma ThirdTrackerIff(rep: seq<Event>, later: seq<Event>, third: seq<Event>)
    requires JoinsFromJoined(rep, later, third)
    ensures Alike(After(rep + later), After(third)) <==> NothingTakenOver(rep, later)
  {
    hide Part, Alike, NothingOlder, After, JoinsFromJoined;
    ThirdTrackerHasNewcomers(rep, later, third);
    PartIsAlikeIff(After(rep + later), After(third), After(rep).created, FirstUploads(rep + later));
  }

  /** They have accounts of the same names exactly if every account that was taken over has been deleted since. */
  lemma ThirdTrackerAccountsIff(rep: seq<Event>, later: seq<Event>, third: seq<Event>)
    requires JoinsFromJoined(rep, later, third)
    ensures var users := After(rep + later).users;
      users.Keys == After(third).users.Keys <==> forall name :: name in users ==> users[name].id >= After(rep).created
  {
    hide After, JoinsFromJoined, PartOfGroups;
    ThirdTrackerHasNewcomers(rep, later, third);
  }

  /** Any account that was taken over and still exists is unknown to the third tracker. */
  lemma ThirdTrackerMissesAccounts(rep: seq<Event>, later: seq<Event>, third: seq<Event>, name: string)
    requires JoinsFromJoined(rep, later, third)
    requires name in After(rep + later).users && After(rep + later).users[name].id < After(rep).created
    ensures name !in After(third).users
  {
    hide After, JoinsFromJoined, PartOfGroups;
    ThirdTrackerHasNewcomers(rep, later, third);
  }

  /** It misses nothing as long as the second tracker had nobody to take over. */
  lemma NothingToTakeOver(rep: seq<Event>, later: seq<Event>, third: seq<Event>)
    requires JoinsFromJoined(rep, later, third) && After(rep).created == 0
    ensures Alike(After(rep + later), After(third))
  {
    hide After, JoinsFromJoined, Alike, FirstUploads;
    ThirdTrackerIff(rep, later, third);
    var s := After(rep + later);
    forall id, h | id in s.groups && h in s.groups[id].files ensures Newer(FirstUploads(rep + later), 0, id, h) {
      FirstUploadsAreFiles(rep + later, id, h);
    }
  }
}
