/** Two trackers: mirroring from the one that the clients use to the other, and joining by a sync. */
module Network {
  import opened Streams
  import opened Codec
  import opened Requests
  import opened TrackerSpec
  import opened Agreement
  import opened Runs
  import opened Replay

  /** A tracker and its record of successful transactions. */
  datatype Tracker = Tracker(state: State, log: seq<string>)

  const BLANK: Tracker := Tracker(EMPTY, [])

  /** process_data: the first character is the mirror flag. Gives the message for the other trackers, if any. `told`
      says whether the reply to a client can be sent; if not, the error leaves the handler before the success is
      recorded and mirrored, but after it has changed the state. */
  ghost function Process(t: Tracker, message: string, pick: Pick, told: bool): (Tracker, Option<string>)
    requires message != ""
  {
    var line := message[1..];
    var e := Event(line, pick, message[0] != '1' || told);
    var (s', out) := StepLine(t.state, e);
    if out.Success() && e.told then
      (Tracker(s', t.log + [line]), if message[0] == '1' then Some("0" + line) else None)
    else (Tracker(s', t.log), None)
  }

  /** Every message makes its step. It is recorded exactly if that succeeds and, for a client's message, the reply goes
      out; a client's recorded line goes on to the other trackers as a mirror, and nothing else does. */
  lemma ProcessIs(t: Tracker, message: string, pick: Pick, told: bool)
    requires message != ""
    ensures var (line, client) := (message[1..], message[0] == '1');
      var (s', out) := StepLine(t.state, Event(line, pick, true));
      var (t', mirrored) := Process(t, message, pick, told);
      && t'.state == s'
      && t'.log == t.log + (if out.Success() && (client ==> told) then [line] else [])
      && (mirrored.Some? <==> client && told && out.Success())
      && (mirrored.Some? ==> mirrored.value != "" && mirrored.value[0] == '0' && mirrored.value[1..] == line)
  {
    hide Step, DecodeLine;
    var (client, e) := (message[0] == '1', Event(message[1..], pick, message[0] != '1' || told));
    assert StepLine(t.state, e) == StepLine(t.state, Event(message[1..], pick, true));
  }

  // ---- Who gets a mirror ----

  function GenerateId(hash: string -> Size, e: Endpoint): Size {
    hash(EndpointText(e))
  }

  /** mirror(): one message to each tracker of the list other than this one, lost where the tracker is down. */
  function Mirrors(trackers: seq<Endpoint>, up: seq<bool>, hash: string -> Size, self: Size, message: string)
    : (sent: seq<(Endpoint, string)>)
    requires |trackers| == |up|
  {
    if trackers == [] then []
    else
      (if GenerateId(hash, trackers[0]) != self && up[0] then [(trackers[0], message)] else [])
      + Mirrors(trackers[1..], up[1..], hash, self, message)
  }

  /** How many trackers of the list are not this one. */
  function Others(trackers: seq<Endpoint>, hash: string -> Size, self: Size): nat {
    if trackers == [] then 0
    else (if GenerateId(hash, trackers[0]) != self then 1 else 0) + Others(trackers[1..], hash, self)
  }

  /** No tracker mirrors to itself or more than once to an entry of the list, and none that is up is left out. */
  lemma {:induction false} MirrorsReachTheOthers(trackers: seq<Endpoint>, up: seq<bool>, hash: string -> Size,
                                                 self: Size, message: string)
    requires |trackers| == |up|
    ensures var sent := Mirrors(trackers, up, hash, self, message);
      && |sent| <= Others(trackers, hash, self)
      && (forall m :: m in sent ==> m.1 == message && GenerateId(hash, m.0) != self)
      && (forall i :: 0 <= i < |trackers| && up[i] && GenerateId(hash, trackers[i]) != self ==>
            (trackers[i], message) in sent)
      && ((forall i :: 0 <= i < |up| ==> up[i]) ==> |sent| == Others(trackers, hash, self))
  {
    if trackers != [] {
      MirrorsReachTheOthers(trackers[1..], up[1..], hash, self, message);
      forall i | 0 <= i < |trackers| && up[i] && GenerateId(hash, trackers[i]) != self
        ensures (trackers[i], message) in Mirrors(trackers, up, hash, self, message)
      {
        if i > 0 {
          assert trackers[1..][i - 1] == trackers[i] && up[1..][i - 1] == up[i];
        }
      }
    }
  }

  /** A tracker of the list counts for its own messages at most all entries but one. */
  lemma {:induction false} OthersBound(trackers: seq<Endpoint>, hash: string -> Size, self: Size)
    ensures Others(trackers, hash, self) <= |trackers|
    ensures (exists i :: 0 <= i < |trackers| && GenerateId(hash, trackers[i]) == self) ==>
      Others(trackers, hash, self) <= |trackers| - 1
  {
    hide GenerateId;
    if trackers != [] {
      OthersBound(trackers[1..], hash, self);
      if i :| 0 <= i < |trackers| && GenerateId(hash, trackers[i]) == self {
        if i > 0 {
          assert trackers[1..][i - 1] == trackers[i];
        }
      }
    }
  }

  /** One message taken up by one of the trackers, in whatever state that tracker is and whoever else is up. */
  datatype Handled = Handled(self: Size, tracker: Tracker, message: string, pick: Pick, told: bool, up: seq<bool>) {
    predicate Fits(trackers: seq<Endpoint>) {
      message != "" && |up| == |trackers|
    }

    ghost function Mirrored(): Option<string>
      requires message != ""
    {
      Process(tracker, message, pick, told).1
    }

    /** The messages that mirror() sends because of this one. */
    ghost function Sends(trackers: seq<Endpoint>, hash: string -> Size): nat
      requires Fits(trackers)
    {
      match Mirrored()
      case None => 0
      case Some(m) => |Mirrors(trackers, up, hash, self, m)|
    }

    predicate FromClient() {
      message != "" && message[0] == '1'
    }
  }

  ghost predicate AllFit(handled: seq<Handled>, trackers: seq<Endpoint>) {
    forall i :: 0 <= i < |handled| ==> handled[i].Fits(trackers)
  }

  /** All mirror messages that handling some messages causes. */
  ghost function MirrorSends(handled: seq<Handled>, trackers: seq<Endpoint>, hash: string -> Size): nat
    requires AllFit(handled, trackers)
  {
    if handled == [] then 0
    else
      assert handled[0].Fits(trackers);
      handled[0].Sends(trackers, hash) + MirrorSends(handled[1..], trackers, hash)
  }

  function FromClients(handled: seq<Handled>): nat {
    if handled == [] then 0 else (if handled[0].FromClient() then 1 else 0) + FromClients(handled[1..])
  }

  lemma MirrorOfOne(h: Handled, trackers: seq<Endpoint>, hash: string -> Size)
    requires h.Fits(trackers)
    ensures h.Mirrored().Some? ==> h.FromClient() && h.Mirrored().value == "0" + h.message[1..]
    ensures h.Sends(trackers, hash) <= if h.FromClient() then Others(trackers, hash, h.self) else 0
  {
    hide StepLine;
    if h.Mirrored().Some? {
      MirrorsReachTheOthers(trackers, h.up, hash, h.self, h.Mirrored().value);
    }
  }

  /** A mirror message is never mirrored again, so however n trackers of one list interleave, mirror() sends at most
      n - 1 messages for each message from a client. */
  lemma {:induction false} MirroringDoesNotLoop(handled: seq<Handled>, trackers: seq<Endpoint>, hash: string -> Size)
    requires AllFit(handled, trackers)
    requires forall i :: 0 <= i < |handled| ==>
      exists k :: 0 <= k < |trackers| && GenerateId(hash, trackers[k]) == handled[i].self
    ensures MirrorSends(handled, trackers, hash) <= (|trackers| - 1) * FromClients(handled)
    ensures forall h :: h in handled ==>
      && h.Fits(trackers)
      && (h.Mirrored().Some? ==> h.FromClient() && h.Mirrored().value == "0" + h.message[1..])
  {
    hide GenerateId, Process, Mirrors, Others;
    if handled != [] {
      var h := handled[0];
      assert forall i :: 1 <= i < |handled| ==> handled[i] == handled[1..][i - 1];
      MirroringDoesNotLoop(handled[1..], trackers, hash);
      MirrorOfOne(h, trackers, hash);
      OthersBound(trackers, hash, h.self);
      OneMore(|trackers| - 1, FromClients(handled[1..]));
      assert handled == [h] + handled[1..];
    }
  }

  lemma OneMore(a: int, b: nat)
    ensures a * (1 + b) == a + a * b
  {
  }

  /** The primary serves the clients; its mirror messages queue up on the way to the backup.
      `synced` is the part of the primary's log that the backup got when it joined. */
  datatype Link = Link(primary: Tracker, backup: Tracker, synced: seq<string>, wire: seq<string>)

  datatype Action =
    | ClientRequest(line: string, pick: Pick, told: bool)
    | Deliver(pick: Pick)
    /** The backup starts afresh: it replays the primary's log and then receives mirrors again.
        Mirrors sent while it was down are gone. */
    | Join(picks: seq<Pick>)

  ghost predicate Enabled(l: Link, a: Action) {
    match a
    case ClientRequest(_, _, _) => true
    case Deliver(_) => l.wire != [] && l.wire[0] != ""
    case Join(picks) => |picks| == |l.primary.log|
  }

  function Events(lines: seq<string>, picks: seq<Pick>): seq<Event>
    requires |lines| == |picks|
  {
    seq(|lines|, i requires 0 <= i < |lines| => Event(lines[i], picks[i], true))
  }

  ghost function Next(l: Link, a: Action): Link
    requires Enabled(l, a)
  {
    match a
    case ClientRequest(line, pick, told) =>
      var (primary, mirrored) := Process(l.primary, "1" + line, pick, told);
      l.(primary := primary, wire := l.wire + if mirrored.Some? then [mirrored.value] else [])
    case Deliver(pick) =>
      l.(backup := Process(l.backup, l.wire[0], pick, true).0, wire := l.wire[1..])
    case Join(picks) =>
      Link(l.primary, Tracker(After(Events(l.primary.log, picks)), []), l.primary.log, [])
  }

  const START: Link := Link(BLANK, BLANK, [], [])

  /** The last of a list of actions leads from the link that the others reach. */
  ghost predicate Runnable(actions: seq<Action>) {
    actions == [] ||
    var n := |actions| - 1;
    Runnable(actions[..n]) && Enabled(Reached(actions[..n]), actions[n])
  }

  ghost function Reached(actions: seq<Action>): Link {
    if actions == [] then START
    else
      var n := |actions| - 1;
      var before := Reached(actions[..n]);
      if Enabled(before, actions[n]) then Next(before, actions[n]) else before
  }

  /** What the clients sent to the primary. */
  ghost function ClientRun(actions: seq<Action>): seq<Event> {
    if actions == [] then []
    else
      var n := |actions| - 1;
      ClientRun(actions[..n]) +
      if actions[n].ClientRequest? then [Event(actions[n].line, actions[n].pick, actions[n].told)] else []
  }

  function Stripped(wire: seq<string>): seq<string>
    requires forall i :: 0 <= i < |wire| ==> wire[i] != ""
  {
    seq(|wire|, i requires 0 <= i < |wire| => wire[i][1..])
  }

  /** The primary is where its clients' run leads; the backup has executed exactly the synced entries and the
      delivered ones; and these, with the mirrors on the way, are the primary's log. */
  ghost predicate Consistent(l: Link, run: seq<Event>, rep: seq<Event>) {
    && l.primary == Tracker(After(run), LogOf(run))
    && l.backup.state == After(rep)
    && Lines(rep) == l.synced + l.backup.log && AllTold(rep)
    && (forall i :: 0 <= i < |l.wire| ==> l.wire[i] != "" && l.wire[i][0] == '0')
    && l.synced + l.backup.log + Stripped(l.wire) == l.primary.log
  }

  // ---- Prefixes of a log ----

  /** Each prefix of a run's log is the log of a prefix of the run. */
  lemma {:induction false} LogPrefix(run: seq<Event>, m: nat) returns (k: nat)
    requires m <= |LogOf(run)|
    ensures k <= |run| && LogOf(run[..k]) == LogOf(run)[..m]
    decreases |run|
  {
    hide Succeeds;
    if m == |LogOf(run)| {
      k := |run|;
      assert run[..k] == run;
    } else {
      var n := |run| - 1;
      k := LogPrefix(run[..n], m);
      assert run[..n][..k] == run[..k];
    }
  }

  /** A replay of part of the log makes every entry of that part succeed. */
  lemma PartialReplaySucceeds(run: seq<Event>, rep: seq<Event>)
    requires Replayable(run) && Lines(rep) <= LogOf(run) && AllTold(rep)
    ensures LogOf(rep) == Lines(rep)
  {
    hide Replayable;
    var k := LogPrefix(run, |rep|);
    PrefixReplayable(run, k);
    ReplayIsFaithful(run[..k], rep);
  }

  // ---- Steps keep the link consistent ----

  lemma RequestKeeps(l: Link, run: seq<Event>, rep: seq<Event>, e: Event)
    requires Consistent(l, run, rep)
    ensures Consistent(Next(l, ClientRequest(e.line, e.pick, e.told)), run + [e], rep)
  {
    hide StepLine;
    var l' := Next(l, ClientRequest(e.line, e.pick, e.told));
    assert ("1" + e.line)[1..] == e.line && ("0" + e.line)[1..] == e.line;
    AfterSnoc(run, e);
    if StepLine(After(run), e).1.Success() && e.told {
      assert Stripped(l'.wire) == Stripped(l.wire) + [e.line];
    } else {
      assert l'.wire == l.wire;
    }
  }

  lemma ProcessSuccess(t: Tracker, message: string, pick: Pick)
    requires message != "" && StepLine(t.state, Event(message[1..], pick, true)).1.Success()
    ensures var e := Event(message[1..], pick, true);
      Process(t, message, pick, true).0 == Tracker(StepLine(t.state, e).0, t.log + [e.line])
  {
    hide StepLine;
  }

  lemma DeliverKeeps(l: Link, run: seq<Event>, rep: seq<Event>, pick: Pick)
    requires Consistent(l, run, rep) && Replayable(run) && l.wire != []
    ensures Consistent(Next(l, Deliver(pick)), run, rep + [Event(l.wire[0][1..], pick, true)])
  {
    hide StepLine, Replayable, Process, After, LogOf;
    var line := l.wire[0][1..];
    var e := Event(line, pick, true);
    assert Stripped(l.wire) == [line] + Stripped(l.wire[1..]);
    assert Lines(rep + [e]) == Lines(rep) + [line];
    assert LogOf(run) == Lines(rep + [e]) + Stripped(l.wire[1..]);
    PartialReplaySucceeds(run, rep + [e]);
    AfterSnoc(rep, e);
    LogIsNoLonger(rep);
    ProcessSuccess(l.backup, l.wire[0], pick);
  }

  lemma JoinKeeps(l: Link, run: seq<Event>, rep: seq<Event>, picks: seq<Pick>)
    requires Consistent(l, run, rep) && |picks| == |l.primary.log|
    ensures Consistent(Next(l, Join(picks)), run, Events(l.primary.log, picks))
  {
    var rep' := Events(l.primary.log, picks);
    assert Lines(rep') == l.primary.log;
  }

  // ---- Whole executions ----

  lemma {:induction false} ReachedIsConsistent(actions: seq<Action>) returns (rep: seq<Event>)
    requires Runnable(actions) && Replayable(ClientRun(actions))
    ensures Consistent(Reached(actions), ClientRun(actions), rep)
  {
    hide Consistent, Replayable, Next, Enabled;
    if actions == [] {
      rep := [];
      StartIsConsistent();
    } else {
      var n := |actions| - 1;
      var before := actions[..n];
      var run := ClientRun(before);
      assert Replayable(run) by {
        assert ClientRun(actions)[..|run|] == run;
        PrefixReplayable(ClientRun(actions), |run|);
      }
      rep := ReachedIsConsistent(before);
      var l := Reached(before);
      match actions[n]
      case ClientRequest(line, pick, told) => RequestKeeps(l, run, rep, Event(line, pick, told));
      case Deliver(pick) =>
        EnabledMeans(l, actions[n]);
        assert ClientRun(actions) == run;
        DeliverKeeps(l, run, rep, pick);
        rep := rep + [Event(l.wire[0][1..], pick, true)];
      case Join(picks) =>
        EnabledMeans(l, actions[n]);
        assert ClientRun(actions) == run;
        JoinKeeps(l, run, rep, picks);
        rep := Events(l.primary.log, picks);
    }
  }

  lemma StartIsConsistent()
    ensures Consistent(START, [], [])
  {
  }

  lemma EnabledMeans(l: Link, a: Action)
    requires Enabled(l, a)
    ensures a.Deliver? ==> l.wire != [] && l.wire[0] != ""
    ensures a.Join? ==> |a.picks| == |l.primary.log|
  {
  }

  /** In every reachable state, what the backup synced, what it logged since and what is on the way make up the
      primary's log; every mirrored line succeeded on the backup too; and whenever nothing is on the way, the
      two trackers agree modulo seeders. */
  lemma {:induction false} TrackersAgree(actions: seq<Action>)
    requires Runnable(actions) && Replayable(ClientRun(actions))
    ensures var l := Reached(actions);
      && (forall i :: 0 <= i < |l.wire| ==> l.wire[i] != "")
      && l.synced + l.backup.log + Stripped(l.wire) == l.primary.log
      && (l.wire == [] ==> Agree(l.primary.state, l.backup.state))
  {
    hide Replayable, Agree;
    var run, l := ClientRun(actions), Reached(actions);
    var rep := ReachedIsConsistent(actions);
    if l.wire == [] {
      assert Lines(rep) == LogOf(run);
      ReplayIsFaithful(run, rep);
    }
  }

  // ---- Without replayable requests ----

  /** The actions by which clients send a run to the tracker in front. */
  function Sending(run: seq<Event>): seq<Action> {
    seq(|run|, i requires 0 <= i < |run| => ClientRequest(run[i].line, run[i].pick, run[i].told))
  }

  lemma RequestReaches(l: Link, run: seq<Event>, e: Event)
    requires l.primary == Tracker(After(run), LogOf(run))
    ensures Next(l, ClientRequest(e.line, e.pick, e.told)).primary == Tracker(After(run + [e]), LogOf(run + [e]))
  {
    hide StepLine, After, LogOf;
    assert ("1" + e.line)[1..] == e.line;
    assert e == Event(e.line, e.pick, e.told);
    AfterSnoc(run, e);
  }

  lemma {:induction false} SentRunIsReached(run: seq<Event>)
    ensures Runnable(Sending(run)) && ClientRun(Sending(run)) == run
    ensures Reached(Sending(run)).primary == Tracker(After(run), LogOf(run))
  {
    hide After, LogOf, Next;
    if run == [] {
      NothingSent();
    } else {
      var n := |run| - 1;
      SentRunIsReached(run[..n]);
      assert Sending(run)[..n] == Sending(run[..n]);
      RequestReaches(Reached(Sending(run[..n])), run[..n], run[n]);
      assert run == run[..n] + [run[n]];
    }
  }

  lemma NothingSent()
    ensures After([]) == EMPTY && LogOf([]) == []
  {
  }

  /** A replay of the record is what a tracker can execute that joins then. */
  lemma JoinReaches(run: seq<Event>, rep: seq<Event>) returns (actions: seq<Action>)
    requires Replays(rep, run)
    ensures Runnable(actions) && ClientRun(actions) == run && Reached(actions).wire == []
    ensures Reached(actions).primary.state == After(run) && Reached(actions).backup.state == After(rep)
  {
    hide After, LogOf;
    var picks := seq(|rep|, i requires 0 <= i < |rep| => rep[i].pick);
    SentRunIsReached(run);
    actions := Sending(run) + [Join(picks)];
    assert actions[..|run|] == Sending(run);
    assert |Lines(rep)| == |LogOf(run)|;
    forall i | 0 <= i < |rep| ensures Events(LogOf(run), picks)[i] == rep[i] {
      assert Lines(rep)[i] == rep[i].line;
    }
    assert Events(LogOf(run), picks) == rep;
  }

  /** The clients sent this run, and nothing is on the way. */
  ghost predicate Settles(actions: seq<Action>, run: seq<Event>) {
    Runnable(actions) && ClientRun(actions) == run && Reached(actions).wire == []
  }

  /** The hypothesis on the requests is exact: two trackers agree in all reachable states with nothing on the way,
      for all beginnings of what the clients send, if and only if what they send is replayable. */
  lemma TrackersAgreeIff(run: seq<Event>)
    ensures Replayable(run) <==>
      forall k, actions :: 0 <= k <= |run| && Settles(actions, run[..k]) ==>
        Agree(Reached(actions).primary.state, Reached(actions).backup.state)
  {
    hide Replayable, Agree, Runnable, Reached, ClientRun, After;
    if Replayable(run) {
      forall k, actions | 0 <= k <= |run| && Settles(actions, run[..k])
        ensures Agree(Reached(actions).primary.state, Reached(actions).backup.state)
      {
        PrefixReplayable(run, k);
        TrackersAgree(actions);
      }
    } else {
      var k := FirstUnreplayable(run);
      var rep := UnreplayableBreaksReplay(run, k);
      var actions := JoinReaches(run[..k + 1], rep);
      assert Settles(actions, run[..k + 1]);
    }
  }

  // ---- Joining ----

  /** A tracker that joined by replaying another's log, and then processed any messages at all, is what a replay
      of that log followed by its own log gives, modulo seeders. Its own log holds only the second part. */
  lemma {:induction false} JoinedTracker(run: seq<Event>, rep: seq<Event>, later: seq<Event>, again: seq<Event>)
    requires Replayable(run) && Replays(rep, run) && Replayable(rep + later)
    requires Replays(again, rep + later)
    ensures LogOf(run) <= LogOf(rep + later)
    ensures Lines(again) == LogOf(run) + LogOf(rep + later)[|LogOf(run)|..]
    ensures Agree(After(rep + later), After(again))
  {
    hide Replayable, Agree, After, LogOf;
    ReplayIsFaithful(run, rep);
    LogGrows(rep, later);
    ReplayIsFaithful(rep + later, again);
  }

  lemma {:induction false} LogGrows(run: seq<Event>, later: seq<Event>)
    ensures LogOf(run) <= LogOf(run + later)
    decreases |later|
  {
    hide Succeeds;
    if later == [] {
      assert run + later == run;
    } else {
      var n := |later| - 1;
      assert (run + later)[..|run| + n] == run + later[..n];
      LogGrows(run, later[..n]);
    }
  }

  /** What a joining tracker takes from the messages it receives: everything before an empty one or "done". */
  function Received(messages: seq<string>): seq<string> {
    if messages == [] || messages[0] == "" || messages[0] == "done" then []
    else [messages[0]] + Received(messages[1..])
  }

  lemma {:induction false} ReceivedUpToDone(log: seq<string>)
    requires forall i :: 0 <= i < |log| ==> log[i] != "" && log[i] != "done"
    ensures Received(log + ["done"]) == log
  {
    if log != [] {
      assert (log + ["done"])[1..] == log[1..] + ["done"];
      ReceivedUpToDone(log[1..]);
    }
  }

  /** The exchange delivers exactly the sender's log, in order. */
  lemma {:induction false} SyncDeliversTheLog(run: seq<Event>)
    ensures Received(LogOf(run) + ["done"]) == LogOf(run)
  {
    LoggedLinesAreRequests(run);
    ReceivedUpToDone(LogOf(run));
  }

  // ---- Why no mirror may be lost ----

  /** From any reachable state with nothing on the way: losing the mirror of the next success leaves the trackers in
      agreement exactly if that success is a download or a join by a user who is pending already. */
  lemma LostMirrorIff(actions: seq<Action>, line: string, pick: Pick)
    requires Runnable(actions) && Replayable(ClientRun(actions)) && Reached(actions).wire == []
    requires Next(Reached(actions), ClientRequest(line, pick, true)).wire != []
    ensures var l := Reached(actions);
      var lost := Next(l, ClientRequest(line, pick, true)).(wire := []);
      Agree(lost.primary.state, lost.backup.state) <==> IdleEvent(l.primary.state, Event(line, pick, true))
  {
    hide Replayable, Runnable, Reached, Agree, StepLine, IdleEvent;
    TrackersAgree(actions);
    var l, e := Reached(actions), Event(line, pick, true);
    assert ("1" + line)[1..] == line;
    var s, s', t := l.primary.state, StepLine(l.primary.state, e).0, l.backup.state;
    LineChangesIff(s, e);
    if Agree(s, s') {
      AgreeBackwards(s, s', t);
    }
    if Agree(s', t) {
      AgreeSymmetric(s', t);
      AgreeSymmetric(s, t);
      AgreeBackwards(t, s, s');
    }
  }

  /** For instance, if the mirror of a first create_user is lost, the trackers disagree although nothing is on its
      way. */
  lemma LostMirrorBreaksAgreement(id: Size, name: string, password: string, pick: Pick)
    requires IsWord(name) && IsWord(password)
    ensures var line := Decimal(id) + (" " + "create_user" + (" " + name + (" " + password)));
      var l := Next(START, ClientRequest(line, pick, true));
      var lost := l.(wire := []);
      l.wire == ["0" + line] && !Agree(lost.primary.state, lost.backup.state)
  {
    hide ReadWord, KindOf, Decimal;
    var args := " " + name + (" " + password);
    var line := Decimal(id) + (" " + "create_user" + args);
    HeaderRoundTrip(id, CREATE_USER, args);
    ReadWordBack(" ", name, " " + password);
    assert " " + password == " " + password + "";
    ReadWordBack(" ", password, "");
    assert DecodeLine(line) == Some(Call(id, CreateUser(name, password)));
    assert ("1" + line)[1..] == line;
  }
}
