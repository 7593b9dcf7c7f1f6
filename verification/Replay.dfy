/** Replaying a tracker's log of successes on an empty tracker. */
module Replay {
  import opened Requests
  import opened TrackerSpec
  import opened TrackerInvariants
  import opened Agreement
  import opened Runs

  ghost predicate UnambiguousEvent(s: State, e: Event) {
    match DecodeLine(e.line)
    case None => true
    case Some(c) => Unambiguous(s, c)
  }

  /** No accept of the run had two requesters of one name to choose from. */
  ghost predicate UnambiguousRun(run: seq<Event>) {
    forall k :: 0 <= k < |run| ==> UnambiguousEvent(After(run[..k]), run[k])
  }

  ghost predicate DeterminedEvent(s: State, e: Event) {
    match DecodeLine(e.line)
    case None => true
    case Some(c) => Determined(s, c)
  }

  ghost predicate IdleEvent(s: State, e: Event) {
    match DecodeLine(e.line)
    case None => false
    case Some(c) => Idle(s, c)
  }

  /** The event leaves nothing open that matters, and if it succeeds without its reply going out, it is a download
      or a repeated join. */
  ghost predicate ReplayableEvent(s: State, e: Event) {
    DeterminedEvent(s, e) && (StepLine(s, e).1.Success() && !e.told ==> IdleEvent(s, e))
  }

  /** No ambiguous accept, no stored description without a size, and no success lost to the record except those that
      change nothing. */
  ghost predicate Replayable(run: seq<Event>) {
    forall k :: 0 <= k < |run| ==> ReplayableEvent(After(run[..k]), run[k])
  }

  ghost predicate AllTold(run: seq<Event>) {
    forall i :: 0 <= i < |run| ==> run[i].told
  }

  /** The events of one run re-execute the record of another; a replay owes nobody a reply. */
  ghost predicate Replays(rep: seq<Event>, run: seq<Event>) {
    Lines(rep) == LogOf(run) && AllTold(rep)
  }

  /** Every replayed entry succeeds again, and the two trackers agree. */
  ghost predicate Faithful(run: seq<Event>, rep: seq<Event>) {
    LogOf(rep) == Lines(rep) && Agree(After(run), After(rep))
  }

  // ---- One step ----

  lemma StepLineRespectsAgreement(s: State, t: State, e: Event, e': Event)
    requires Agree(s, t) && DeterminedEvent(s, e) && e.line == e'.line
    ensures StepLine(s, e).1.Success() == StepLine(t, e').1.Success()
    ensures Agree(StepLine(s, e).0, StepLine(t, e').0)
  {
    hide Step, Agree, Determined;
    match DecodeLine(e.line)
    case None =>
    case Some(c) => StepRespectsAgreement(s, t, c, e.pick, e'.pick);
  }

  lemma FailedLineIsInvisible(s: State, e: Event)
    requires !StepLine(s, e).1.Success()
    ensures Agree(s, StepLine(s, e).0)
  {
    hide Step, Agree;
    AgreeReflexive(s);
    match DecodeLine(e.line)
    case None =>
    case Some(c) => FailureIsInvisible(s, c, e.pick);
  }

  /** A successful line leaves the tracker in agreement with what it was exactly if it is a download or a repeated
      join, and then changes nothing. */
  lemma LineChangesIff(s: State, e: Event)
    requires StepLine(s, e).1.Success()
    ensures Agree(s, StepLine(s, e).0) <==> IdleEvent(s, e)
    ensures IdleEvent(s, e) ==> StepLine(s, e).0 == s
  {
    hide Step, Agree, Idle;
    match DecodeLine(e.line)
    case None =>
    case Some(c) => SuccessChangesIff(s, c, e.pick);
  }

  /** An event that is not recorded is invisible, as far as the run is replayable. */
  lemma UnrecordedIsInvisible(s: State, e: Event)
    requires ReplayableEvent(s, e) && !(StepLine(s, e).1.Success() && e.told)
    ensures Agree(s, StepLine(s, e).0)
  {
    hide StepLine, Agree, DeterminedEvent, IdleEvent;
    if StepLine(s, e).1.Success() {
      LineChangesIff(s, e);
    } else {
      FailedLineIsInvisible(s, e);
    }
  }

  lemma SplitLast(rep: seq<Event>, log: seq<string>, line: string)
    requires Lines(rep) == log + [line] && AllTold(rep)
    ensures |rep| == |log| + 1 && Lines(rep[..|log|]) == log && rep[|log|].line == line
    ensures rep == rep[..|log|] + [rep[|log|]] && AllTold(rep[..|log|]) && rep[|log|].told
  {
    var n := |log|;
    assert |Lines(rep)| == n + 1;
    assert Lines(rep)[n] == line;
    forall i | 0 <= i < n ensures rep[i].line == log[i] {
      assert Lines(rep)[i] == (log + [line])[i];
    }
  }

  // ---- Whole runs ----

  /** Re-executing the record makes every entry succeed again and gives the same users, sessions, groups, owners,
      members, join requests and file descriptions, whatever either tracker meets on the way. */
  lemma {:induction false} ReplayIsFaithful(run: seq<Event>, rep: seq<Event>)
    requires Replayable(run) && Replays(rep, run)
    ensures Faithful(run, rep)
    decreases |run|
  {
    hide StepLine, Agree, DeterminedEvent, IdleEvent;
    if run == [] {
      assert rep == [];
      AgreeReflexive(EMPTY);
    } else {
      var n := |run| - 1;
      var before, e := run[..n], run[n];
      PrefixReplayable(run, n);
      if Recorded(run, n) {
        SplitLast(rep, LogOf(before), e.line);
        var m := |LogOf(before)|;
        ReplayIsFaithful(before, rep[..m]);
        StepLineRespectsAgreement(After(before), After(rep[..m]), e, rep[m]);
        assert Lines(rep) == Lines(rep[..m]) + [e.line];
      } else {
        ReplayIsFaithful(before, rep);
        UnrecordedIsInvisible(After(before), e);
        AgreeBackwards(After(before), After(run), After(rep));
      }
    }
  }

  lemma AgreeBackwards(s: State, s': State, t: State)
    requires Agree(s, s') && Agree(s, t)
    ensures Agree(s', t)
  {
    forall id | id in s'.groups ensures SameGroup(s'.groups[id], t.groups[id]) {
      assert SameGroup(s.groups[id], s'.groups[id]) && SameGroup(s.groups[id], t.groups[id]);
    }
  }

  lemma PrefixReplayable(run: seq<Event>, k: nat)
    requires Replayable(run) && k <= |run|
    ensures Replayable(run[..k])
  {
    hide ReplayableEvent, After;
    forall i | 0 <= i < k ensures ReplayableEvent(After(run[..k][..i]), run[..k][i]) {
      assert run[..k][..i] == run[..i];
    }
  }

  /** If no username is created twice, no accept is ambiguous. */
  lemma FreshNamesAreUnambiguous(run: seq<Event>)
    requires NoNameCreatedTwice(run)
    ensures UnambiguousRun(run)
  {
    hide DecodeLine, Creations;
    forall k | 0 <= k < |run| ensures UnambiguousEvent(After(run[..k]), run[k]) {
      CreationsGrow(run, k);
      RunKnowsItsUsers(run[..k]);
      var s, users := After(run[..k]), Creations(run[..k]);
      match DecodeLine(run[k].line)
      case None =>
      case Some(c) =>
        if OwnerAccepts(s, c) {
          var g := s.groups[c.request.groupId];
          assert KnowsGroup(users, g);
          forall u, v | u in Requesters(g, c.request.username) && v in Requesters(g, c.request.username)
            ensures u == v
          {
            NamesIdentifyUsers(run, u, v);
          }
        }
    }
  }

  // ---- The condition is exact ----

  /** The recorded events of a run, with what the run itself met. */
  ghost function Records(run: seq<Event>): seq<Event> {
    if run == [] then []
    else
      var n := |run| - 1;
      Records(run[..n]) + if Recorded(run, n) then [run[n]] else []
  }

  lemma {:induction false} RecordsReplay(run: seq<Event>)
    ensures Replays(Records(run), run)
  {
    hide Succeeds;
    if run != [] {
      RecordsReplay(run[..|run| - 1]);
    }
  }

  /** One more replayed entry, after which the states differ. */
  lemma ReplayDiverges(run: seq<Event>, rep: seq<Event>, e: Event, e': Event)
    requires Replays(rep, run) && e.line == e'.line && e.told && e'.told && StepLine(After(run), e).1.Success()
    requires !Agree(StepLine(After(run), e).0, StepLine(After(rep), e').0)
    ensures Replays(rep + [e'], run + [e]) && !Agree(After(run + [e]), After(rep + [e']))
  {
    hide StepLine, Agree, After, LogOf;
    AfterSnoc(run, e);
    AfterSnoc(rep, e');
    assert Lines(rep + [e']) == Lines(rep) + [e'.line];
  }

  /** Where something was left open that matters, the same line can lead to another state. */
  lemma OpenEventDiverges(s: State, t: State, e: Event) returns (e': Event)
    requires !DeterminedEvent(s, e) && Sound(s) && Agree(s, t)
    ensures e'.line == e.line && e'.told
    ensures StepLine(s, e).1.Success() && !Agree(StepLine(s, e).0, StepLine(t, e').0)
  {
    hide Step, Agree, Unambiguous, DecodeLine;
    var c := DecodeLine(e.line).value;
    var q;
    if Unambiguous(s, c) {
      q := UnsetSizeDiverges(s, t, c, e.pick);
    } else {
      AmbiguityIsInAGroup(s, c);
      assert SoundGroup(s.groups[c.request.groupId]);
      q := AmbiguousAcceptDiverges(s, t, c, e.pick);
    }
    e' := Event(e.line, q, true);
  }

  lemma AmbiguityIsInAGroup(s: State, c: Call)
    requires !Unambiguous(s, c)
    ensures OwnerAccepts(s, c)
  {
  }

  /** A success that is lost to the record and changed something: no replay knows of it. */
  lemma LostSuccessDiverges(run: seq<Event>, rep: seq<Event>, e: Event)
    requires Replays(rep, run) && Agree(After(run), After(rep))
    requires StepLine(After(run), e).1.Success() && !e.told && !IdleEvent(After(run), e)
    ensures Replays(rep, run + [e]) && !Agree(After(run + [e]), After(rep))
  {
    hide StepLine, Agree, After, LogOf, IdleEvent;
    AfterSnoc(run, e);
    LineChangesIff(After(run), e);
    if Agree(After(run + [e]), After(rep)) {
      AgreeSymmetric(After(run), After(rep));
      AgreeSymmetric(After(run + [e]), After(rep));
      AgreeBackwards(After(rep), After(run), After(run + [e]));
    }
  }

  lemma AgreeSymmetric(s: State, t: State)
    requires Agree(s, t)
    ensures Agree(t, s)
  {
  }

  lemma OpenEventIsNotIdle(s: State, e: Event)
    requires !DeterminedEvent(s, e)
    ensures !IdleEvent(s, e)
  {
    hide DecodeLine;
  }

  /** At the first event that is not replayable, some replay of the record goes wrong. */
  lemma UnreplayableBreaksReplay(run: seq<Event>, k: nat) returns (rep: seq<Event>)
    requires k < |run| && !ReplayableEvent(After(run[..k]), run[k]) && Replayable(run[..k])
    ensures Replays(rep, run[..k + 1]) && !Agree(After(run[..k + 1]), After(rep))
  {
    hide StepLine, Agree, After, DeterminedEvent, IdleEvent, Sound, Lines, LogOf, Records, Replays, Replayable;
    var before, e := run[..k], run[k];
    var s := After(before);
    assert run[..k + 1] == before + [e];
    rep := Records(before);
    RecordsReplay(before);
    ReplayIsFaithful(before, rep);
    if DeterminedEvent(s, e) {
      LostSuccessDiverges(before, rep, e);
    } else {
      RunIsSound(before);
      OpenEventIsNotIdle(s, e);
      var e' := OpenEventDiverges(s, After(rep), e);
      if e.told {
        ReplayDiverges(before, rep, e, e');
        rep := rep + [e'];
      } else {
        LostSuccessDiverges(before, rep, e);
      }
    }
  }

  /** The first event that is not replayable. */
  lemma {:induction false} FirstUnreplayable(run: seq<Event>) returns (k: nat)
    requires !Replayable(run)
    ensures k < |run| && !ReplayableEvent(After(run[..k]), run[k]) && Replayable(run[..k])
  {
    hide ReplayableEvent, After;
    var n := |run| - 1;
    if Replayable(run[..n]) {
      k := n;
      forall i | 0 <= i < n ensures ReplayableEvent(After(run[..i]), run[i]) {
        assert run[..n][..i] == run[..i] && run[..n][i] == run[i];
      }
    } else {
      k := FirstUnreplayable(run[..n]);
      assert run[..n][..k] == run[..k];
    }
  }

  /** Every replay of the record, at every point of a run and whatever it meets on the way, leads to agreement exactly
      when the run is replayable; and then every replayed entry succeeds. */
  lemma ReplayFaithfulIff(run: seq<Event>)
    ensures Replayable(run) <==>
      forall k, rep :: 0 <= k <= |run| && Replays(rep, run[..k]) ==> Agree(After(run[..k]), After(rep))
    ensures Replayable(run) ==>
      forall k, rep :: 0 <= k <= |run| && Replays(rep, run[..k]) ==> Faithful(run[..k], rep)
  {
    hide Agree, After, Replayable, Replays;
    if Replayable(run) {
      forall k, rep | 0 <= k <= |run| && Replays(rep, run[..k]) ensures Faithful(run[..k], rep) {
        PrefixReplayable(run, k);
        ReplayIsFaithful(run[..k], rep);
      }
    } else {
      var k := FirstUnreplayable(run);
      var rep := UnreplayableBreaksReplay(run, k);
    }
  }
}
