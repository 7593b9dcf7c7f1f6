/** Runs of one tracker from the empty state, their log of successes, and what holds in every reachable state. */
module Runs {
  import opened Streams
  import opened Requests
  import opened TrackerSpec
  import opened TrackerInvariants

  /** A line without its mirror flag, and what its processing left open. `told` is false for a client's request
      whose reply could not be sent; mirrored and replayed requests owe nobody a reply. */
  datatype Event = Event(line: string, pick: Pick, told: bool)

  /** parse_request followed by process_request; an unknown command is answered and changes nothing. */
  ghost function StepLine(s: State, e: Event): (State, Outcome) {
    match DecodeLine(e.line)
    case None => (s, Fail("Unknown request"))
    case Some(c) => Step(s, c, e.pick)
  }

  ghost function After(run: seq<Event>): State {
    if run == [] then EMPTY
    else StepLine(After(run[..|run| - 1]), run[|run| - 1]).0
  }

  /** The k-th step of a run succeeds. */
  ghost predicate Succeeds(run: seq<Event>, k: nat)
    requires k < |run|
  {
    StepLine(After(run[..k]), run[k]).1.Success()
  }

  /** The reply is sent before the record is written, and an error in sending it leaves the handler: a success is
      on record only if its reply went out. */
  ghost predicate Recorded(run: seq<Event>, k: nat)
    requires k < |run|
  {
    Succeeds(run, k) && run[k].told
  }

  /** successful_transactions: the recorded lines, in order. */
  ghost function LogOf(run: seq<Event>): seq<string> {
    if run == [] then []
    else
      var n := |run| - 1;
      LogOf(run[..n]) + if Recorded(run, n) then [run[n].line] else []
  }

  function Lines(run: seq<Event>): seq<string> {
    seq(|run|, i requires 0 <= i < |run| => run[i].line)
  }

  lemma AfterSnoc(run: seq<Event>, e: Event)
    ensures After(run + [e]) == StepLine(After(run), e).0
    ensures LogOf(run + [e]) == LogOf(run) + if StepLine(After(run), e).1.Success() && e.told then [e.line] else []
  {
    assert (run + [e])[..|run|] == run;
  }

  lemma {:induction false} LogIsNoLonger(run: seq<Event>)
    ensures |LogOf(run)| <= |run|
  {
    hide Succeeds;
    if run != [] {
      LogIsNoLonger(run[..|run| - 1]);
    }
  }

  /** In every reachable state of every run, the group and file tables are sound. */
  lemma {:induction false} RunIsSound(run: seq<Event>)
    ensures Sound(After(run))
  {
    if run != [] {
      var n := |run| - 1;
      RunIsSound(run[..n]);
      match DecodeLine(run[n].line)
      case None =>
      case Some(c) => StepKeeps(After(run[..n]), c, run[n].pick);
    }
  }

  /** From any point of a run on, no group disappears or changes its owner, and files and seeders only come in. */
  lemma {:induction false} RunGrows(run: seq<Event>, k: nat)
    requires k <= |run|
    ensures Grows(After(run[..k]), After(run))
    decreases |run|
  {
    hide Grows, Sound, DecodeLine, Step;
    if k == |run| {
      assert run[..k] == run;
      GrowsReflexive(After(run));
    } else {
      var n := |run| - 1;
      assert run[..n][..k] == run[..k];
      RunGrows(run[..n], k);
      RunIsSound(run[..n]);
      match DecodeLine(run[n].line)
      case None =>
      case Some(c) =>
        StepKeeps(After(run[..n]), c, run[n].pick);
        GrowsTransitive(After(run[..k]), After(run[..n]), After(run));
    }
  }

  /** The owner of a group never stops being a member of it, and pending requesters are never members. */
  lemma {:induction false} OwnersStayMembers(run: seq<Event>, k: nat, id: string)
    requires k <= |run| && id in After(run[..k]).groups
    ensures id in After(run).groups
    ensures var g := After(run).groups[id];
      && g.owner == After(run[..k]).groups[id].owner && HasMember(g, g.owner) && g.owner !in g.users
      && forall u :: u in g.requests ==> !HasMember(g, u)
  {
    RunGrows(run, k);
    RunIsSound(run);
    assert SoundGroup(After(run).groups[id]);
  }

  lemma SyncNeverSucceeds(s: State, c: Call, pick: Pick)
    ensures c.request.Sync? ==> !Step(s, c, pick).1.Success()
  {
  }

  /** A logged line is a well-formed user, group or file request: replaying it never reaches the sync branch,
      which is the only one that uses its connection. */
  lemma {:induction false} LoggedLinesAreRequests(run: seq<Event>)
    ensures forall i :: 0 <= i < |LogOf(run)| ==>
      DecodeLine(LogOf(run)[i]).Some? && !DecodeLine(LogOf(run)[i]).value.request.Sync?
    ensures forall i :: 0 <= i < |LogOf(run)| ==> LogOf(run)[i] != "" && LogOf(run)[i] != "done"
  {
    hide DecodeLine, Step;
    if run != [] {
      var n := |run| - 1;
      LoggedLinesAreRequests(run[..n]);
      MarkersAreNotRequests();
      if Recorded(run, n) {
        SyncNeverSucceeds(After(run[..n]), DecodeLine(run[n].line).value, run[n].pick);
      }
    }
  }

  // ---- User names ----

  /** The users that the successful creates of a run allocated, in order. */
  ghost function Creations(run: seq<Event>): seq<User> {
    if run == [] then []
    else
      var n := |run| - 1;
      var s := After(run[..n]);
      var before := Creations(run[..n]);
      match DecodeLine(run[n].line)
      case Some(Call(_, CreateUser(name, password))) =>
        if Succeeds(run, n) then before + [User(s.created, name, password)] else before
      case _ => before
  }

  ghost predicate NoNameCreatedTwice(run: seq<Event>) {
    var users := Creations(run);
    forall i, j :: 0 <= i < j < |users| ==> users[i].name != users[j].name
  }

  predicate Knows(users: seq<User>, u: User) {
    u.id < |users| && users[u.id] == u
  }

  /** Every user that the tracker refers to was created in the run. */
  predicate KnowsGroup(users: seq<User>, g: GroupState) {
    && Knows(users, g.owner)
    && (forall u :: u in g.users ==> Knows(users, u))
    && (forall u :: u in g.requests ==> Knows(users, u))
  }

  predicate KnowsAll(users: seq<User>, s: State) {
    && |users| == s.created
    && (forall name :: name in s.users ==> Knows(users, s.users[name]))
    && (forall o :: o in s.sessions ==> Knows(users, s.sessions[o]))
    && (forall id :: id in s.groups ==> KnowsGroup(users, s.groups[id]))
  }

  lemma WithGroupKeepsKnown(users: seq<User>, s: State, id: string, g: GroupState)
    requires KnowsAll(users, s) && KnowsGroup(users, g)
    ensures KnowsAll(users, WithGroup(s, id, g))
  {
  }

  lemma GroupRequestsKeepKnown(users: seq<User>, s: State, c: Call)
    requires KnowsAll(users, s)
    ensures forall id :: KnowsAll(users, CreateGroupStep(s, c.origin, id).0)
    ensures forall id :: KnowsAll(users, JoinStep(s, c.origin, id).0)
    ensures forall id :: KnowsAll(users, LeaveStep(s, c.origin, id).0)
    ensures forall id, args :: KnowsAll(users, UploadStep(s, c.origin, id, args).0)
  {
  }

  lemma AcceptKeepsKnown(users: seq<User>, s: State, origin: Size, id: string, name: string, pick: User)
    requires KnowsAll(users, s)
    ensures KnowsAll(users, AcceptStep(s, origin, id, name, pick).0)
  {
    if id in s.groups && Requesters(s.groups[id], name) != {} {
      var u := Chosen(Requesters(s.groups[id], name), pick);
      assert u in Requesters(s.groups[id], name);
      assert KnowsGroup(users, s.groups[id]);
      WithGroupKeepsKnown(users, s, id, Admit(s.groups[id], u));
    }
  }

  lemma SessionsKeepKnown(users: seq<User>, s: State, c: Call)
    requires KnowsAll(users, s)
    ensures forall name :: KnowsAll(users, DeleteUserStep(s, name).0)
    ensures forall name, password :: KnowsAll(users, LoginStep(s, c.origin, name, password).0)
    ensures KnowsAll(users, LogoutStep(s, c.origin).0)
  {
  }

  lemma StepKeepsKnown(users: seq<User>, s: State, c: Call, pick: Pick)
    requires KnowsAll(users, s) && !c.request.CreateUser?
    ensures KnowsAll(users, Step(s, c, pick).0)
  {
    hide KnowsAll, DeleteUserStep, LoginStep, LogoutStep, CreateGroupStep, JoinStep, LeaveStep, AcceptStep,
      UploadStep;
    match c.request
    case AcceptRequest(id, name) => AcceptKeepsKnown(users, s, c.origin, id, name, pick.requester);
    case _ =>
      SessionsKeepKnown(users, s, c);
      GroupRequestsKeepKnown(users, s, c);
  }

  lemma CreateKeepsKnown(users: seq<User>, s: State, name: string, password: string)
    requires KnowsAll(users, s)
    ensures var (s', out) := CreateUserStep(s, name, password);
      KnowsAll(if out.Success() then users + [User(s.created, name, password)] else users, s')
  {
    var u := User(s.created, name, password);
    assert forall v :: Knows(users, v) ==> Knows(users + [u], v);
    assert Knows(users + [u], u);
  }

  lemma NothingToKnow()
    ensures KnowsAll([], EMPTY)
  {
  }

  lemma {:induction false} RunKnowsItsUsers(run: seq<Event>)
    ensures KnowsAll(Creations(run), After(run))
  {
    hide DecodeLine, KnowsAll, CreateUserStep;
    if run == [] {
      NothingToKnow();
    } else {
      var n := |run| - 1;
      RunKnowsItsUsers(run[..n]);
      var users, s := Creations(run[..n]), After(run[..n]);
      match DecodeLine(run[n].line)
      case Some(Call(_, CreateUser(name, password))) =>
        CreateKeepsKnown(users, s, name, password);
      case Some(c) => StepKeepsKnown(users, s, c, run[n].pick);
      case None =>
    }
  }

  /** When no name is created twice, a name belongs to one user. */
  lemma NamesIdentifyUsers(run: seq<Event>, u: User, v: User)
    requires NoNameCreatedTwice(run)
    requires Knows(Creations(run), u) && Knows(Creations(run), v) && u.name == v.name
    ensures u == v
  {
    var users := Creations(run);
    assert users[u.id].name == users[v.id].name;
  }

  lemma {:induction false} CreationsGrow(run: seq<Event>, k: nat)
    requires k <= |run|
    ensures Creations(run[..k]) <= Creations(run)
    decreases |run|
  {
    if k == |run| {
      assert run[..k] == run;
    } else {
      assert run[..|run| - 1][..k] == run[..k];
      CreationsGrow(run[..|run| - 1], k);
    }
  }
}
