/** Runs from the empty tracker that reach the cases in which its promises fail, for any words and ids. */
module Scenarios {
  import opened Streams
  import opened Codec
  import opened Requests
  import opened TrackerSpec
  import opened Agreement
  import opened Runs
  import opened Replay
  import opened Seeders
  import opened Renaming
  import opened ThirdTracker

  // ---- Commands as text ----

  function ArgText(args: seq<string>): string {
    if args == [] then "" else " " + args[0] + ArgText(args[1..])
  }

  function CommandLine(id: Size, kind: Kind, args: seq<string>): string {
    Decimal(id) + (" " + CommandWord(kind) + ArgText(args))
  }

  function Do(id: Size, kind: Kind, args: seq<string>): Event {
    Event(CommandLine(id, kind, args), ANY, true)
  }

  lemma OneArg(id: Size, kind: Kind, a: string)
    requires IsWord(a)
    ensures DecodeLine(CommandLine(id, kind, [a])) == Some(Call(id, Decode(kind, Open(" " + a))))
    ensures ReadWord(Open(" " + a)) == (a, Stream("", true, false))
  {
    hide DecodeLine, ReadWord, CommandWord, Decode, Decimal;
    assert ArgText([a]) == " " + a + ArgText([]);
    assert ArgText([a]) == " " + a;
    HeaderRoundTrip(id, kind, " " + a);
    assert " " + a == " " + a + "";
    ReadWordBack(" ", a, "");
  }

  lemma TwoArgs(id: Size, kind: Kind, a: string, b: string)
    requires IsWord(a) && IsWord(b)
    ensures DecodeLine(CommandLine(id, kind, [a, b])) == Some(Call(id, Decode(kind, Open(" " + a + (" " + b)))))
    ensures ReadWord(Open(" " + a + (" " + b))) == (a, Open(" " + b))
    ensures ReadWord(Open(" " + b)).0 == b
  {
    hide DecodeLine, ReadWord, CommandWord, Decode, Decimal;
    assert ArgText([a, b]) == " " + a + ArgText([b]);
    assert ArgText([b]) == " " + b + ArgText([]);
    assert ArgText([b]) == " " + b;
    HeaderRoundTrip(id, kind, " " + a + (" " + b));
    ReadWordBack(" ", a, " " + b);
    assert " " + b == " " + b + "";
    ReadWordBack(" ", b, "");
  }

  lemma CommandsAreDecoded(id: Size, a: string, b: string)
    requires IsWord(a) && IsWord(b)
    ensures DecodeLine(CommandLine(id, CREATE_USER, [a, b])) == Some(Call(id, CreateUser(a, b)))
    ensures DecodeLine(CommandLine(id, LOGIN, [a, b])) == Some(Call(id, Login(a, b)))
    ensures DecodeLine(CommandLine(id, ACCEPT_REQUEST, [a, b])) == Some(Call(id, AcceptRequest(a, b)))
    ensures DecodeLine(CommandLine(id, DELETE_USER, [a])) == Some(Call(id, DeleteUser(a)))
    ensures DecodeLine(CommandLine(id, CREATE_GROUP, [a])) == Some(Call(id, CreateGroup(a)))
    ensures DecodeLine(CommandLine(id, JOIN_GROUP, [a])) == Some(Call(id, JoinGroup(a)))
  {
    hide DecodeLine, ReadWord, CommandLine, ReadUploadArgs;
    TwoArgs(id, CREATE_USER, a, b);
    TwoArgs(id, LOGIN, a, b);
    TwoArgs(id, ACCEPT_REQUEST, a, b);
    OneArg(id, DELETE_USER, a);
    OneArg(id, CREATE_GROUP, a);
    OneArg(id, JOIN_GROUP, a);
  }

  // ---- Stretches of a run ----

  lemma Then(run: seq<Event>, e: Event, c: Call)
    requires DecodeLine(e.line) == Some(c)
    ensures After(run + [e]) == Step(After(run), c, e.pick).0
  {
    hide Step, DecodeLine, After;
    AfterSnoc(run, e);
  }

  /** A user registers and logs in. */
  function Arrival(o: Size, name: string, password: string): seq<Event> {
    [Do(o, CREATE_USER, [name, password]), Do(o, LOGIN, [name, password])]
  }

  lemma Arrives(run: seq<Event>, o: Size, name: string, password: string)
    requires IsWord(name) && IsWord(password) && name !in After(run).users && o !in After(run).sessions
    ensures var s := After(run);
      var u := User(s.created, name, password);
      After(run + Arrival(o, name, password)) ==
        s.(users := s.users[name := u], created := s.created + 1, sessions := s.sessions[o := u])
  {
    hide DecodeLine, After, CommandLine;
    CommandsAreDecoded(o, name, password);
    var first, second := Do(o, CREATE_USER, [name, password]), Do(o, LOGIN, [name, password]);
    Then(run, first, Call(o, CreateUser(name, password)));
    Then(run + [first], second, Call(o, Login(name, password)));
    assert run + Arrival(o, name, password) == (run + [first]) + [second];
  }

  lemma NothingYet()
    ensures After([]) == EMPTY && LogOf([]) == []
  {
  }

  /** A user arrives and founds a group. */
  function Founding(o: Size, name: string, password: string, group: string): seq<Event> {
    Arrival(o, name, password) + [Do(o, CREATE_GROUP, [group])]
  }

  lemma Founded(o: Size, name: string, password: string, group: string)
    requires IsWord(name) && IsWord(password) && IsWord(group)
    ensures var u := User(0, name, password);
      After(Founding(o, name, password, group)) ==
        State(map[name := u], 1, map[o := u], map[group := GroupState(u, {}, {}, map[])])
  {
    hide DecodeLine, CommandLine, Arrival, After;
    var before := Arrival(o, name, password);
    NothingYet();
    Arrives([], o, name, password);
    assert [] + before == before;
    CommandsAreDecoded(o, group, group);
    Then(before, Do(o, CREATE_GROUP, [group]), Call(o, CreateGroup(group)));
  }

  /** A user arrives and asks to join a group. */
  function Asking(o: Size, name: string, password: string, group: string): seq<Event> {
    Arrival(o, name, password) + [Do(o, JOIN_GROUP, [group])]
  }

  lemma Asked(run: seq<Event>, o: Size, name: string, password: string, group: string)
    requires IsWord(name) && IsWord(password) && IsWord(group)
    requires name !in After(run).users && o !in After(run).sessions && group in After(run).groups
    requires !HasMember(After(run).groups[group], User(After(run).created, name, password))
    ensures var (s, g) := (After(run), After(run).groups[group]);
      var u := User(s.created, name, password);
      After(run + Asking(o, name, password, group)) ==
        State(s.users[name := u], s.created + 1, s.sessions[o := u],
              s.groups[group := g.(requests := g.requests + {u})])
  {
    hide DecodeLine, CommandLine, Arrival, After;
    var before := run + Arrival(o, name, password);
    Arrives(run, o, name, password);
    CommandsAreDecoded(o, group, group);
    Then(before, Do(o, JOIN_GROUP, [group]), Call(o, JoinGroup(group)));
    assert run + Asking(o, name, password, group) == before + [Do(o, JOIN_GROUP, [group])];
  }

  // ---- An ambiguous accept ----

  /** Someone asks to join, is deleted and created again, and asks once more from elsewhere. */
  function TwoRequesters(o1: Size, o2: Size, o3: Size, owner: string, name: string, password: string, group: string)
    : seq<Event>
  {
    Founding(o1, owner, password, group) + Asking(o2, name, password, group) + [Do(o2, DELETE_USER, [name])]
    + Asking(o3, name, password, group)
  }

  lemma TwoRequestersWait(o1: Size, o2: Size, o3: Size, owner: string, name: string, password: string, group: string)
    requires o1 != o2 && o1 != o3 && o2 != o3 && owner != name
    requires IsWord(owner) && IsWord(name) && IsWord(password) && IsWord(group)
    ensures var s := After(TwoRequesters(o1, o2, o3, owner, name, password, group));
      && group in s.groups && o1 in s.sessions && s.groups[group].owner == s.sessions[o1]
      && {User(1, name, password), User(2, name, password)} <= s.groups[group].requests
  {
    hide DecodeLine, CommandLine, Founding, Asking, After;
    var r1 := Founding(o1, owner, password, group);
    Founded(o1, owner, password, group);
    var r2 := r1 + Asking(o2, name, password, group);
    Asked(r1, o2, name, password, group);
    var r3 := r2 + [Do(o2, DELETE_USER, [name])];
    CommandsAreDecoded(o2, name, name);
    Then(r2, Do(o2, DELETE_USER, [name]), Call(o2, DeleteUser(name)));
    Asked(r3, o3, name, password, group);
  }

  /** An ambiguous accept is reachable with every reply going out, so the condition on accepts is not idle. */
  lemma AmbiguityIsReachable(o1: Size, o2: Size, o3: Size, owner: string, name: string, password: string,
                             group: string)
    requires o1 != o2 && o1 != o3 && o2 != o3 && owner != name
    requires IsWord(owner) && IsWord(name) && IsWord(password) && IsWord(group)
    ensures var run := TwoRequesters(o1, o2, o3, owner, name, password, group)
                       + [Do(o1, ACCEPT_REQUEST, [group, name])];
      AllTold(run) && !UnambiguousRun(run) && !Replayable(run)
  {
    hide DecodeLine, CommandLine, After, Step;
    var before := TwoRequesters(o1, o2, o3, owner, name, password, group);
    var e := Do(o1, ACCEPT_REQUEST, [group, name]);
    var run := before + [e];
    TwoRequestersWait(o1, o2, o3, owner, name, password, group);
    CommandsAreDecoded(o1, group, name);
    var s, u, v := After(before), User(1, name, password), User(2, name, password);
    assert u in Requesters(s.groups[group], name) && v in Requesters(s.groups[group], name);
    assert run[..|before|] == before && run[|before|] == e;
    assert !UnambiguousEvent(After(run[..|before|]), run[|before|]);
    assert !DeterminedEvent(After(run[..|before|]), run[|before|]);
  }

  // ---- A success whose reply is lost ----

  lemma LostCreate(o: Size, name: string, password: string)
    requires IsWord(name) && IsWord(password)
    ensures var e := Do(o, CREATE_USER, [name, password]).(told := false);
      UnambiguousEvent(EMPTY, e) && !ReplayableEvent(EMPTY, e) && !Agree(StepLine(EMPTY, e).0, EMPTY)
  {
    hide DecodeLine, CommandLine;
    CommandsAreDecoded(o, name, password);
    var e := Do(o, CREATE_USER, [name, password]).(told := false);
    assert DecodeLine(e.line) == Some(Call(o, CreateUser(name, password)));
    assert StepLine(EMPTY, e) == CreateUserStep(EMPTY, name, password);
    assert !IdleEvent(EMPTY, e);
  }

  /** A create whose reply cannot be sent stays in the tracker and off its record. */
  lemma LostReplyIsReachable(o: Size, name: string, password: string)
    requires IsWord(name) && IsWord(password)
    ensures var run := [Do(o, CREATE_USER, [name, password]).(told := false)];
      UnambiguousRun(run) && LogOf(run) == [] && !Agree(After(run), After([])) && !Replayable(run)
  {
    hide After, LogOf, Agree, ReplayableEvent, UnambiguousEvent, StepLine, CommandLine;
    var e := Do(o, CREATE_USER, [name, password]).(told := false);
    LostCreate(o, name, password);
    NothingYet();
    assert [] + [e] == [e] && [e][..0] == [];
    AfterSnoc([], e);
  }

  // ---- A third tracker ----

  /** A second tracker takes over an account and records nothing itself: a third one that joins from it misses the
      account, unless it was deleted before. */
  lemma ForgottenAccountIsNotMissed(o: Size, name: string, password: string)
    requires IsWord(name) && IsWord(password)
    ensures var made := [Do(o, CREATE_USER, [name, password])];
      var gone := made + [Do(o, DELETE_USER, [name])];
      && JoinsFromJoined(made, [], []) && !Alike(After(made), After([]))
      && JoinsFromJoined(gone, [], []) && Alike(After(gone), After([]))
  {
    hide DecodeLine, CommandLine, After, Alike;
    CommandsAreDecoded(o, name, password);
    var create, delete := Do(o, CREATE_USER, [name, password]), Do(o, DELETE_USER, [name]);
    NothingYet();
    Then([], create, Call(o, CreateUser(name, password)));
    assert [] + [create] == [create];
    Then([create], delete, Call(o, DeleteUser(name)));
    var u := User(0, name, password);
    assert After([create]) == State(map[name := u], 1, map[], map[]);
    assert name in After([create]).users;
    assert After([create] + [delete]) == State(map[], 1, map[], map[]);
    assert [create] + [] == [create] && ([create] + [delete]) + [] == [create] + [delete];
    ThirdTrackerIff([create], [], []);
    ThirdTrackerIff([create] + [delete], [], []);
  }

  // ---- A file uploaded twice ----

  function Uploaded(o: Size, group: string, endpoint: Endpoint, info: FileInfo): Event {
    Event(UploadLine(o, group, endpoint, info), ANY, true)
  }

  /** One member describes the same file from two endpoints. */
  function Reupload(o: Size, owner: string, password: string, group: string, first: Endpoint, second: Endpoint,
                    info: FileInfo): seq<Event>
  {
    Founding(o, owner, password, group) + [Uploaded(o, group, first, info)] + [Uploaded(o, group, second, info)]
  }

  lemma ReuploadAddsSeeder(o: Size, owner: string, password: string, group: string, first: Endpoint,
                           second: Endpoint, info: FileInfo)
    requires IsWord(owner) && IsWord(password) && IsWord(group)
    requires PlainEndpoint(first) && PlainEndpoint(second) && PlainInfo(info)
    ensures var run := Reupload(o, owner, password, group, first, second, info);
      && !NeverReuploads(run)
      && SeedersOf(After(run), group, info.hash) == multiset{first, second}
  {
    hide DecodeLine, UploadLine, Founding, After, PlainEndpoint, PlainInfo;
    var r1 := Founding(o, owner, password, group);
    Founded(o, owner, password, group);
    var e1, e2 := Uploaded(o, group, first, info), Uploaded(o, group, second, info);
    UploadLineRoundTrip(o, group, first, info);
    UploadLineRoundTrip(o, group, second, info);
    Then(r1, e1, Call(o, Upload(group, Described(first, info, true))));
    var r2 := r1 + [e1];
    Then(r2, e2, Call(o, Upload(group, Described(second, info, true))));
    var run := r2 + [e2];
    assert run[..|r2|] == r2 && run[|r2|] == e2;
    assert AddsSeederEvent(After(run[..|r2|]), run[|r2|]);
  }

  /** No replay of such a run gives its state back, although it is replayable. */
  lemma ReuploadIsNotReplayed(o: Size, owner: string, password: string, group: string, first: Endpoint,
                              second: Endpoint, info: FileInfo, rep: seq<Event>)
    requires IsWord(owner) && IsWord(password) && IsWord(group)
    requires PlainEndpoint(first) && PlainEndpoint(second) && PlainInfo(info)
    requires Replays(rep, Reupload(o, owner, password, group, first, second, info))
    ensures var run := Reupload(o, owner, password, group, first, second, info);
      Replayable(run) && Agree(After(run), After(rep)) && After(run) != After(rep)
  {
    hide DecodeLine, UploadLine, CommandLine, After, PlainEndpoint, PlainInfo, Agree, NeverReuploads;
    var run := Reupload(o, owner, password, group, first, second, info);
    ReuploadAddsSeeder(o, owner, password, group, first, second, info);
    CommandsAreDecoded(o, owner, password);
    CommandsAreDecoded(o, group, group);
    UploadLineRoundTrip(o, group, first, info);
    UploadLineRoundTrip(o, group, second, info);
    forall k | 0 <= k < |run| ensures ReplayableEvent(After(run[..k]), run[k]) {
    }
    ReplayIsFaithful(run, rep);
    ReplayEqualIff(run, rep);
  }

  // ---- A file without a name ----

  /** The line of an upload with nothing but white space behind its endpoint. */
  function BareUpload(o: Size, group: string, endpoint: Endpoint): string {
    Decimal(o) + (" " + CommandWord(UPLOAD_FILE) + (" " + group + (" " + EndpointText(endpoint) + " ")))
  }

  lemma BareUploadIsDecoded(o: Size, group: string, endpoint: Endpoint)
    requires IsWord(group) && PlainEndpoint(endpoint)
    ensures DecodeLine(BareUpload(o, group, endpoint)) ==
      Some(Call(o, Upload(group, Described(endpoint, FileInfo("", 0, [], ""), false))))
  {
    hide KindOf, ReadWord, Decimal, EndpointText, ParseEndpoint, ReadUploadArgs;
    var args := " " + EndpointText(endpoint) + " ";
    HeaderRoundTrip(o, UPLOAD_FILE, " " + group + args);
    ReadWordBack(" ", group, args);
    BareArgsAreDecoded(endpoint);
  }

  lemma BareArgsAreDecoded(endpoint: Endpoint)
    requires PlainEndpoint(endpoint)
    ensures ReadUploadArgs(Open(" " + EndpointText(endpoint) + " ")) ==
      Described(endpoint, FileInfo("", 0, [], ""), false)
  {
    hide EndpointText, ParseEndpoint, ReadWord;
    EndpointTextIsWord(endpoint);
    ReadWordBack(" ", EndpointText(endpoint), " ");
    EndpointRoundTrip(endpoint);
    BlankDescribesNothing();
  }

  lemma BlankDescribesNothing()
    ensures ParseFileInfo(" ", 0) == FileInfo("", 0, [], "") && !HasSize(" ")
  {
    assert " "[1..] == "";
    assert SkipSpaces(" ") == "";
  }

  /** Such an upload stores a file without a name, whose size nothing determines. */
  lemma NamelessFileIsReachable(o: Size, owner: string, password: string, group: string, endpoint: Endpoint)
    requires IsWord(owner) && IsWord(password) && IsWord(group) && PlainEndpoint(endpoint)
    ensures var run := Founding(o, owner, password, group) + [Event(BareUpload(o, group, endpoint), ANY, true)];
      && group in After(run).groups && "" in After(run).groups[group].files
      && After(run).groups[group].files[""].info.name == ""
      && !Replayable(run)
  {
    hide DecodeLine, BareUpload, Founding, After, PlainEndpoint;
    var before, e := Founding(o, owner, password, group), Event(BareUpload(o, group, endpoint), ANY, true);
    Founded(o, owner, password, group);
    BareUploadIsDecoded(o, group, endpoint);
    Then(before, e, Call(o, Upload(group, Described(endpoint, FileInfo("", 0, [], ""), false))));
    var run := before + [e];
    assert run[..|before|] == before && run[|before|] == e;
    assert !DeterminedEvent(After(run[..|before|]), run[|before|]);
  }
}
