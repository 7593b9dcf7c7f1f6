/** Facts about a tracker that requests switch on and off, and the histories in which they hold. */
module Histories {
  import opened Streams
  import opened Requests
  import opened TrackerSpec
  import opened TrackerInvariants
  import opened Runs

  /** At which points of a run something happens. */
  ghost function Flags(run: seq<Event>, happens: (State, Event) -> bool): (flags: seq<bool>)
    ensures |flags| == |run|
  {
    seq(|run|, k requires 0 <= k < |run| => happens(After(run[..k]), run[k]))
  }

  /** Some event of the first kind has no later event of the second kind. */
  ghost predicate Stands(on: seq<bool>, off: seq<bool>)
    requires |on| == |off|
  {
    exists j :: 0 <= j < |on| && on[j] && forall k :: j < k < |off| ==> !off[k]
  }

  lemma StandsSnoc(on: seq<bool>, off: seq<bool>, a: bool, b: bool)
    requires |on| == |off|
    ensures Stands(on + [a], off + [b]) <==> a || (Stands(on, off) && !b)
  {
    var on', off' := on + [a], off + [b];
    assert forall k :: 0 <= k < |off| ==> off'[k] == off[k];
    if a {
      assert on'[|on|];
    } else {
      if Stands(on, off) && !b {
        var j :| 0 <= j < |on| && on[j] && forall k :: j < k < |off| ==> !off[k];
        assert on'[j];
      }
      forall j | 0 <= j < |on'| && on'[j] && forall k :: j < k < |off'| ==> !off'[k]
        ensures Stands(on, off) && !b
      {
        assert j < |on| && on[j] && !off'[|off|];
        assert forall k :: j < k < |off| ==> !off'[k];
      }
    }
  }

  lemma FlagsSnoc(run: seq<Event>, happens: (State, Event) -> bool)
    requires run != []
    ensures var n := |run| - 1;
      Flags(run, happens) == Flags(run[..n], happens) + [happens(After(run[..n]), run[n])]
  {
    hide After;
    assert forall k :: 0 <= k < |run| - 1 ==> run[..|run| - 1][..k] == run[..k];
  }

  lemma FlagsPrefix(run: seq<Event>, j: nat, happens: (State, Event) -> bool)
    requires j <= |run|
    ensures Flags(run[..j], happens) == Flags(run, happens)[..j]
  {
    hide After;
    assert forall k :: 0 <= k < j ==> run[..j][..k] == run[..k];
  }

  /** How one step switches a fact. */
  ghost predicate Switches(holds: State -> bool, on: (State, Event) -> bool, off: (State, Event) -> bool,
                           s: State, e: Event)
  {
    holds(StepLine(s, e).0) <==> on(s, e) || (holds(s) && !off(s, e))
  }

  /** A fact that each step switches like that holds after a run exactly when it was switched on and not off since. */
  lemma {:induction false} HoldsIff(run: seq<Event>, holds: State -> bool, on: (State, Event) -> bool,
                                    off: (State, Event) -> bool)
    requires !holds(EMPTY) && forall s, e :: Sound(s) ==> Switches(holds, on, off, s, e)
    ensures holds(After(run)) <==> Stands(Flags(run, on), Flags(run, off))
  {
    hide StepLine, Stands, Flags, Sound;
    if run == [] {
      NothingStands(on, off);
    } else {
      var n := |run| - 1;
      HoldsIff(run[..n], holds, on, off);
      RunIsSound(run[..n]);
      assert Switches(holds, on, off, After(run[..n]), run[n]);
      FlagsSnoc(run, on);
      FlagsSnoc(run, off);
      StandsSnoc(Flags(run[..n], on), Flags(run[..n], off), on(After(run[..n]), run[n]), off(After(run[..n]), run[n]));
    }
  }

  lemma NothingStands(on: (State, Event) -> bool, off: (State, Event) -> bool)
    ensures !Stands(Flags([], on), Flags([], off))
  {
  }

  // ---- Accounts ----

  /** The user of that name. */
  predicate Registered(s: State, u: User) {
    u.name in s.users && s.users[u.name] == u
  }

  /** A successful create of `u`, the next user, under its name and with its password. */
  predicate Registers(s: State, c: Call, u: User) {
    c.request == CreateUser(u.name, u.password) && u.name != "" && u.password != "" && u.name !in s.users
    && u.id == s.created
  }

  predicate Unregisters(c: Call, name: string) {
    c.request == DeleteUser(name)
  }

  lemma OthersKeepUsers(s: State, c: Call, pick: Pick)
    requires !c.request.CreateUser? && !c.request.DeleteUser?
    ensures Step(s, c, pick).0.users == s.users
  {
    hide FileGuard, Requesters, Chosen, AddFile, AddSeeder, HasMember;
  }

  lemma StepRegisters(s: State, c: Call, pick: Pick, u: User)
    ensures Registered(Step(s, c, pick).0, u) <==>
      Registers(s, c, u) || (Registered(s, u) && !Unregisters(c, u.name))
  {
    if !c.request.CreateUser? && !c.request.DeleteUser? {
      hide Step;
      OthersKeepUsers(s, c, pick);
    }
  }

  // ---- Sessions ----

  predicate InSession(s: State, origin: Size, u: User) {
    origin in s.sessions && s.sessions[origin] == u
  }

  /** A successful login: nobody is logged in from there, and the name and the password are those of `u`. */
  predicate LogsIn(s: State, c: Call, origin: Size, u: User) {
    && c == Call(origin, Login(u.name, u.password)) && u.name != "" && u.password != ""
    && origin !in s.sessions && Registered(s, u)
  }

  predicate LogsOut(c: Call, origin: Size) {
    c == Call(origin, Logout)
  }

  lemma OthersKeepSessions(s: State, c: Call, pick: Pick)
    requires !c.request.Login? && !c.request.Logout?
    ensures Step(s, c, pick).0.sessions == s.sessions
  {
    hide FileGuard, Requesters, Chosen, AddFile, AddSeeder, HasMember;
  }

  lemma StepSessions(s: State, c: Call, pick: Pick, origin: Size, u: User)
    requires Sound(s)
    ensures InSession(Step(s, c, pick).0, origin, u) <==>
      LogsIn(s, c, origin, u) || (InSession(s, origin, u) && !LogsOut(c, origin))
  {
    if !c.request.Login? && !c.request.Logout? {
      hide Step;
      OthersKeepSessions(s, c, pick);
    }
  }

  // ---- Groups ----

  predicate Owns(s: State, id: string, u: User) {
    id in s.groups && s.groups[id].owner == u
  }

  predicate Founds(s: State, c: Call, id: string, u: User) {
    c.request == CreateGroup(id) && InSession(s, c.origin, u) && id !in s.groups
  }

  lemma NewGroupsAreFounded(s: State, c: Call, pick: Pick, id: string, u: User)
    requires id !in s.groups
    ensures Owns(Step(s, c, pick).0, id, u) <==> Founds(s, c, id, u)
  {
    hide Requesters, Chosen, AddFile, AddSeeder, HasMember;
  }

  lemma StepOwners(s: State, c: Call, pick: Pick, id: string, u: User)
    requires Sound(s)
    ensures Owns(Step(s, c, pick).0, id, u) <==> Founds(s, c, id, u) || Owns(s, id, u)
  {
    hide Step, Sound;
    if id in s.groups {
      StepKeeps(s, c, pick);
      assert GroupGrows(s.groups[id], Step(s, c, pick).0.groups[id]);
    } else {
      NewGroupsAreFounded(s, c, pick, id, u);
    }
  }

  /** What makes an account, a session or a group is a success. */
  lemma BeginningsSucceed(s: State, c: Call, pick: Pick, origin: Size, id: string, u: User)
    requires Registers(s, c, u) || LogsIn(s, c, origin, u) || Founds(s, c, id, u)
    ensures Step(s, c, pick).1.Success()
  {
    match c.request
    case CreateUser(_, _) =>
    case Login(_, _) =>
    case CreateGroup(_) =>
  }

  // ---- The histories ----

  /** The line asks for something of the given kind. */
  ghost predicate Asks(s: State, e: Event, kind: (State, Call) -> bool) {
    match DecodeLine(e.line)
    case None => false
    case Some(c) => kind(s, c)
  }

  ghost function Creation(u: User): (State, Event) -> bool {
    (s, e) => Asks(s, e, (s', c) => Registers(s', c, u))
  }

  ghost function Deletion(name: string): (State, Event) -> bool {
    (s, e) => Asks(s, e, (s', c) => Unregisters(c, name))
  }

  ghost function LoginOf(origin: Size, u: User): (State, Event) -> bool {
    (s, e) => Asks(s, e, (s', c) => LogsIn(s', c, origin, u))
  }

  ghost function LogoutOf(origin: Size): (State, Event) -> bool {
    (s, e) => Asks(s, e, (s', c) => LogsOut(c, origin))
  }

  ghost function Foundation(id: string, u: User): (State, Event) -> bool {
    (s, e) => Asks(s, e, (s', c) => Founds(s', c, id, u))
  }

  ghost function Never(): (State, Event) -> bool {
    (s, e) => false
  }

  lemma NothingYet(origin: Size, id: string, u: User)
    ensures !Registered(EMPTY, u) && !InSession(EMPTY, origin, u) && !Owns(EMPTY, id, u)
  {
  }

  /** An account exists exactly if it was created, with that name and password, and the name not deleted since. */
  lemma {:induction false} AccountsAreHistory(run: seq<Event>, u: User)
    ensures Registered(After(run), u) <==> Stands(Flags(run, Creation(u)), Flags(run, Deletion(u.name)))
  {
    hide Step, DecodeLine, Registers, Unregisters, Registered, After, Stands, Sound;
    var holds := s => Registered(s, u);
    forall s, e ensures Switches(holds, Creation(u), Deletion(u.name), s, e) {
      match DecodeLine(e.line)
      case None =>
      case Some(c) => StepRegisters(s, c, e.pick, u);
    }
    NothingYet(0, "", u);
    HoldsIff(run, holds, Creation(u), Deletion(u.name));
  }

  /** A session exists exactly if its user logged in from there, with its password and while nobody was logged in,
      and nobody logged out from there since; deleting the user does not end it. */
  lemma {:induction false} SessionsAreHistory(run: seq<Event>, origin: Size, u: User)
    ensures InSession(After(run), origin, u) <==>
      Stands(Flags(run, LoginOf(origin, u)), Flags(run, LogoutOf(origin)))
  {
    hide Step, DecodeLine, LogsIn, LogsOut, InSession, After, Stands, Sound;
    var holds := s => InSession(s, origin, u);
    forall s, e | Sound(s) ensures Switches(holds, LoginOf(origin, u), LogoutOf(origin), s, e) {
      match DecodeLine(e.line)
      case None =>
      case Some(c) => StepSessions(s, c, e.pick, origin, u);
    }
    NothingYet(origin, "", u);
    HoldsIff(run, holds, LoginOf(origin, u), LogoutOf(origin));
  }

  /** A group belongs to a user exactly if a session of that user once created it. */
  lemma {:induction false} GroupsAreHistory(run: seq<Event>, id: string, u: User)
    ensures Owns(After(run), id, u) <==> Stands(Flags(run, Foundation(id, u)), Flags(run, Never()))
  {
    hide Step, DecodeLine, Founds, Owns, After, Stands, Sound;
    var holds := s => Owns(s, id, u);
    forall s, e | Sound(s) ensures Switches(holds, Foundation(id, u), Never(), s, e) {
      match DecodeLine(e.line)
      case None =>
      case Some(c) => StepOwners(s, c, e.pick, id, u);
    }
    NothingYet(0, id, u);
    HoldsIff(run, holds, Foundation(id, u), Never());
  }
}
