/** The tracker's handlers on its mutable objects: process_request.cpp and tracker.cpp, each branch proved to
    take the step that TrackerSpec gives it.
 */
module TrackerServer {
  import opened Streams
  import opened Codec
  import opened Requests
  import opened TrackerSpec
  import opened TrackerObjects
  import opened Runs
  import opened Replay
  import FileRights
  import Network
  import TcpServer

  /** The messages after an end marker are never received. */
  lemma ReceivedStep(messages: seq<string>, i: nat)
    requires i < |messages|
    ensures messages[i] == "" || messages[i] == "done" ==> Network.Received(messages[i..]) == []
    ensures messages[i] != "" && messages[i] != "done" ==>
      Network.Received(messages[i..]) == [messages[i]] + Network.Received(messages[i + 1..])
  {
  }

  /** Messages that a joining tracker can take: well-formed requests other than a sync, as far as an end marker. */
  predicate Syncable(messages: seq<string>) {
    forall i :: 0 <= i < |Network.Received(messages)| ==>
      var t := ParseRequest(Network.Received(messages)[i]);
      t.Some? && !t.value.kind.SYNC?
  }

  predicate Ends(messages: seq<string>) {
    "" in messages || "done" in messages
  }

  lemma OnlySyncDecodesToSync(kind: Kind, args: Stream)
    ensures Decode(kind, args).Sync? <==> kind.SYNC?
  {
    hide ReadWord, ReadUploadArgs;
  }

  lemma DecodedKind(line: string)
    ensures DecodeLine(line).Some? <==> ParseRequest(line).Some?
    ensures DecodeLine(line).Some? ==> (DecodeLine(line).value.request.Sync? <==> ParseRequest(line).value.kind.SYNC?)
  {
    hide ParseRequest, Decode;
    if ParseRequest(line).Some? {
      OnlySyncDecodesToSync(ParseRequest(line).value.kind, Arguments(ParseRequest(line).value.data));
    }
  }

  // ---- What becomes of the messages to whoever sent one ----

  /** Sending and receiving go through, or one of them throws after some number of them went through. */
  datatype Fate = Fine | Breaks(after: nat, error: TcpServer.Error)

  /** A single reply goes out. */
  predicate Told(fate: Fate) {
    fate.Fine? || fate.after > 0
  }

  /** What of a log and its end marker is sent, each entry being acknowledged before the next one, and what is
      thrown. */
  function Dumped(log: seq<string>, fate: Fate): (seq<string>, Option<TcpServer.Error>) {
    var all := log + ["done"];
    if fate.Breaks? && fate.after <= 2 * |log| then (all[..(fate.after + 1) / 2], Some(fate.error)) else (all, None)
  }

  /** The reply that goes out. */
  function Answered(t: Transaction, out: Outcome, doMirror: bool, fate: Fate): Option<Reply> {
    if out.Done? && !t.kind.SYNC? && doMirror && Told(fate) then Some(out.reply) else None
  }

  /** What the event loop sees of a tracker's data callback: it disconnects at the end of a sync, and throws what
      sending throws or what leaves the handler. */
  function Reacts(t: Option<Transaction>, out: Outcome, doMirror: bool, log: seq<string>, fate: Fate)
    : TcpServer.Reaction
  {
    if t.Some? && t.value.kind.SYNC? then
      var thrown := Dumped(log, fate).1;
      TcpServer.Reaction(thrown.None?, thrown)
    else if out.Escaped? then TcpServer.Reaction(false, Some(TcpServer.Foreign))
    else if (t.None? || doMirror) && !Told(fate) then TcpServer.Reaction(false, Some(fate.error))
    else TcpServer.Reaction(false, None)
  }

  /** Who is answered, and with what: a client whose request is known, unless it throws or is a sync, if the reply goes
      out. Mirrors are not answered. */
  lemma AnsweredIff(t: Transaction, out: Outcome, doMirror: bool, fate: Fate)
    ensures Answered(t, out, doMirror, fate).Some? <==>
      doMirror && !t.kind.SYNC? && out != Escaped && (fate == Fine || fate.after >= 1)
    ensures Answered(t, out, doMirror, fate).Some? ==> Answered(t, out, doMirror, fate).value == out.reply
  {
  }

  /** Entry k of the log, or the end marker behind all entries, is sent exactly if what came before it was sent and
      acknowledged. */
  lemma DumpedIff(log: seq<string>, fate: Fate)
    ensures var (sent, thrown) := Dumped(log, fate);
      && sent <= log + ["done"]
      && (forall k :: 0 <= k <= |log| ==> (k < |sent| <==> fate.Fine? || fate.after > 2 * k))
      && thrown == (if |sent| == |log| + 1 then None else Some(fate.error))
  {
    forall k | 0 <= k <= |log| ensures k < |Dumped(log, fate).0| <==> fate.Fine? || fate.after > 2 * k {
      if fate.Breaks? && fate.after <= 2 * |log| {
        Halves(fate.after, k);
      }
    }
  }

  lemma Halves(n: nat, k: nat)
    ensures (n + 1) / 2 > k <==> n > 2 * k
  {
  }

  /** The callback disconnects only behind a complete sync, and throws exactly what broke a message to the client or
      what left the handler. */
  lemma ReactsIff(t: Option<Transaction>, out: Outcome, doMirror: bool, log: seq<string>, fate: Fate)
    ensures var (r, sync) := (Reacts(t, out, doMirror, log, fate), t.Some? && t.value.kind.SYNC?);
      && (r.disconnects <==> sync && (fate.Fine? || fate.after > 2 * |log|))
      && (sync ==> (r.throws.None? <==> r.disconnects))
      && (!sync && out.Escaped? ==> r.throws == Some(TcpServer.Foreign))
      && (!sync && out.Done? ==> (r.throws.Some? <==> (t.None? || doMirror) && fate.Breaks? && fate.after == 0))
      && (out.Done? && r.throws.Some? ==> fate.Breaks? && r.throws == Some(fate.error))
  {
  }

  /** What a joining tracker takes: everything up to the first end marker or empty message. */
  lemma {:induction false} ReceivedIsTheBeginning(messages: seq<string>)
    ensures var taken := Network.Received(messages);
      && taken <= messages && "" !in taken && "done" !in taken
      && (|taken| < |messages| ==> messages[|taken|] in ["", "done"])
  {
    if messages != [] && messages[0] != "" && messages[0] != "done" {
      ReceivedIsTheBeginning(messages[1..]);
      assert messages == [messages[0]] + messages[1..];
    }
  }

  lemma {:induction false} ReceivedWithoutEnd(messages: seq<string>)
    requires !Ends(messages)
    ensures Network.Received(messages) == messages
  {
    if messages != [] {
      assert !Ends(messages[1..]);
      ReceivedWithoutEnd(messages[1..]);
    }
  }

  /** What a tracker sends to a joining one can always be taken. It is a beginning of the log, and the whole log,
      with an end marker, exactly if no exchange broke. */
  lemma LogsAreSyncable(run: seq<Event>, fate: Fate)
    ensures var (sent, thrown) := Dumped(LogOf(run), fate);
      && Syncable(sent) && Network.Received(sent) <= LogOf(run)
      && (Ends(sent) <==> thrown.None?)
      && (thrown.None? ==> Network.Received(sent) == LogOf(run))
  {
    hide ParseRequest, Network.Received;
    var log, all, sent := LogOf(run), LogOf(run) + ["done"], Dumped(LogOf(run), fate).0;
    Network.SyncDeliversTheLog(run);
    LoggedLinesAreRequests(run);
    if Dumped(log, fate).1.Some? {
      assert sent == log[..|sent|];
      ReceivedWithoutEnd(sent);
    } else {
      assert all[|all| - 1] == "done";
    }
    forall i | 0 <= i < |Network.Received(sent)|
      ensures var t := ParseRequest(Network.Received(sent)[i]); t.Some? && !t.value.kind.SYNC?
    {
      assert Network.Received(sent)[i] == log[i] && DecodeLine(log[i]).Some?;
      var t := ParseRequest(log[i]).value;
      OnlySyncDecodesToSync(t.kind, Arguments(t.data));
    }
  }

  /** What a joining tracker takes from the first `n` of a list: from each other tracker that accepts the connection,
      what comes before an end marker or before the connection closes. */
  function Taken(trackers: seq<Endpoint>, offers: seq<Option<seq<string>>>, hash: string -> Size, self: Size, n: nat)
    : seq<string>
    requires n <= |trackers| == |offers|
  {
    if n == 0 then []
    else
      Taken(trackers, offers, hash, self, n - 1) +
      if Network.GenerateId(hash, trackers[n - 1]) != self && offers[n - 1].Some?
      then Network.Received(offers[n - 1].value) else []
  }

  /** The same read from the front: each other tracker that accepts adds what it sends before its end marker, in the
      order of the list. */
  lemma {:induction false} TakenInOrder(trackers: seq<Endpoint>, offers: seq<Option<seq<string>>>,
                                        hash: string -> Size, self: Size, n: nat)
    requires 0 < n <= |trackers| == |offers|
    ensures Taken(trackers, offers, hash, self, n) ==
      (if hash(EndpointText(trackers[0])) != self && offers[0].Some? then Network.Received(offers[0].value) else [])
      + Taken(trackers[1..], offers[1..], hash, self, n - 1)
    decreases n
  {
    hide EndpointText, Network.Received;
    if n == 1 {
      assert Taken(trackers, offers, hash, self, 0) == [];
    } else {
      TakenInOrder(trackers, offers, hash, self, n - 1);
      assert trackers[1..][n - 2] == trackers[n - 1] && offers[1..][n - 2] == offers[n - 1];
    }
  }

  /** Everything that a tracker's event loop receives is handled by its data callback. */
  ghost predicate TrackerRound(r: TcpServer.Round) {
    forall fd :: r.received(fd).Text? ==>
      exists t, out, doMirror, log, fate :: r.received(fd).reaction == Reacts(t, out, doMirror, log, fate)
  }

  /** So the table of a tracker's event loop is sound whenever the loop looks at it, without further hypotheses on
      the callback. */
  lemma TrackerTableStaysSound(listener: nat, max: nat, rounds: seq<TcpServer.Round>)
    requires forall i :: 0 <= i < |rounds| ==> TrackerRound(rounds[i])
    ensures var t := TcpServer.Rounds(listener, max, rounds); t.dead || TcpServer.Sound(t, listener, max)
  {
    hide TcpServer.Rounds, TcpServer.Sound, Dumped;
    forall i | 0 <= i < |rounds| ensures TcpServer.CivilRound(rounds[i]) {
      assert TrackerRound(rounds[i]);
    }
    TcpServer.TableStaysSound(listener, max, rounds);
  }

  lemma SuccessIsNoSync(s: State, t: Transaction, pick: Pick)
    ensures Step(s, CallOf(t), pick).1.Success() ==> !t.kind.SYNC?
  {
    if t.kind.SYNC? {
      SyncNeverSucceeds(s, CallOf(t), pick);
    }
  }

  /** The two parses of an upload. */
  method ReadUpload(ss: StringStream) returns (args: UploadArgs, ghost unset: Size)
    modifies ss
    ensures args == WithSize(ReadUploadArgs(old(ss.state)), unset)
  {
    hide ReadWord, ParseEndpoint, ParseFileInfo, HasSize;
    unset := 0;
    var endpointText := ss.NextWord();
    var endpoint := ParseEndpoint(endpointText);
    if !endpoint.Parsed? {
      return if endpoint.OutOfRange? then Escapes else Rejected, unset;
    }
    var text := Remainder(ss.state);
    if !text.Parsed? {
      return Escapes, unset;
    }
    var info;
    info, unset := FileInfoFromString(text.value);
    ParseIsFilled(text.value, 0, unset);
    args := Described(endpoint.value, info, true);
  }

  class Server {
    const self: Size
    const hash: string -> Size
    const userDB: UserDB
    const groupDB: GroupDB
    var loggedIn: map<Size, User>
    var successful: seq<string>

    ghost predicate Valid()
      reads this, groupDB, groupDB.groups.Values, groupDB.allFiles`seeders
    {
      groupDB.Valid()
    }

    /** The state that the objects stand for. */
    ghost function Contents(): State
      reads this, userDB, groupDB
    {
      State(userDB.users, userDB.created, loggedIn, groupDB.table)
    }

    constructor (self: Size, hash: string -> Size)
      ensures Valid() && Contents() == EMPTY && successful == []
      ensures this.self == self && this.hash == hash
      ensures fresh(userDB) && fresh(groupDB) && groupDB.groups == map[] && groupDB.allFiles == {}
    {
      this.self, this.hash := self, hash;
      userDB := new UserDB();
      groupDB := new GroupDB();
      loggedIn, successful := map[], [];
    }

    // ---- User requests ----

    method CreateUser(username: string, password: string) returns (out: Outcome)
      requires Valid()
      modifies userDB
      ensures Valid() && (Contents(), out) == CreateUserStep(old(Contents()), username, password)
    {
      if username == "" || password == "" {
        return Fail("Username or password cannot be empty\n");
      }
      var done := userDB.CreateUser(username, password);
      out := if done then Ok("User created\n") else Fail("User already exists\n");
    }

    method DeleteUser(username: string) returns (out: Outcome)
      requires Valid()
      modifies userDB
      ensures Valid() && (Contents(), out) == DeleteUserStep(old(Contents()), username)
    {
      var done := userDB.DeleteUser(username);
      out := if done then Ok("User deleted\n") else Fail("User does not exist\n");
    }

    method Login(origin: Size, username: string, password: string) returns (out: Outcome)
      requires Valid()
      modifies this`loggedIn
      ensures Valid() && (Contents(), out) == LoginStep(old(Contents()), origin, username, password)
    {
      if username == "" || password == "" {
        return Fail("Username or password cannot be empty\n");
      }
      var user := userDB.GetUser(username);
      if origin in loggedIn {
        out := Fail(loggedIn[origin].name + " is already logged in\n");
      } else if user.None? {
        out := Fail("User does not exist\n");
      } else if user.value.password == password {
        loggedIn := loggedIn[origin := user.value];
        out := Ok("Login successful\n");
      } else {
        out := Fail("Login failed\n");
      }
    }

    method Logout(origin: Size) returns (out: Outcome)
      requires Valid()
      modifies this`loggedIn
      ensures Valid() && (Contents(), out) == LogoutStep(old(Contents()), origin)
    {
      if origin in loggedIn {
        loggedIn := loggedIn - {origin};
        out := Ok("Logout successful\n");
      } else {
        out := Fail("Logout failed\n");
      }
    }

    method ProcessUserRequest(origin: Size, kind: Kind, ss: StringStream) returns (out: Outcome)
      requires Valid() && UserKind(kind)
      modifies this`loggedIn, userDB, ss
      ensures Valid()
      ensures (Contents(), out) == Step(old(Contents()), Call(origin, Decode(kind, old(ss.state))), ANY)
    {
      hide ReadWord, CreateUserStep, DeleteUserStep, LoginStep, LogoutStep;
      match kind {
        case CREATE_USER =>
          var username := ss.NextWord();
          var password := ss.NextWord();
          out := CreateUser(username, password);
        case DELETE_USER =>
          var username := ss.NextWord();
          out := DeleteUser(username);
        case LIST_USERS =>
          out := Done(false, Users(userDB.users.Keys));
        case LOGIN =>
          var username := ss.NextWord();
          var password := ss.NextWord();
          out := Login(origin, username, password);
        case LOGOUT =>
          out := Logout(origin);
      }
    }

    // ---- Group requests ----

    method CreateGroup(origin: Size, groupId: string) returns (out: Outcome)
      requires Valid()
      modifies groupDB
      ensures groupDB.allFiles == old(groupDB.allFiles)
      ensures Valid() && (Contents(), out) == CreateGroupStep(old(Contents()), origin, groupId)
      ensures fresh(groupDB.groups.Values - old(groupDB.groups.Values))
    {
      if origin !in loggedIn {
        return Fail(LOGIN_REQUIRED);
      }
      var done := groupDB.CreateGroup(groupId, loggedIn[origin]);
      out := if done then Ok("Group created\n") else Fail("Group already exists\n");
    }

    method JoinGroup(origin: Size, groupId: string) returns (out: Outcome)
      requires Valid()
      modifies groupDB`table, groupDB`allFiles, groupDB.groups.Values
      ensures groupDB.allFiles == old(groupDB.allFiles)
      ensures Valid() && (Contents(), out) == JoinStep(old(Contents()), origin, groupId)
    {
      if origin !in loggedIn {
        return Fail(LOGIN_REQUIRED);
      }
      var user := loggedIn[origin];
      var group := groupDB.GetGroup(groupId);
      if group != null && !group.IsMember(user) {
        groupDB.RecordJoin(groupId, user);
        out := Ok("Join request sent\n");
      } else {
        out := Fail("Invalid request\n");
      }
    }

    method LeaveGroup(origin: Size, groupId: string) returns (out: Outcome)
      requires Valid()
      modifies groupDB`table, groupDB`allFiles, groupDB.groups.Values
      ensures groupDB.allFiles == old(groupDB.allFiles)
      ensures Valid() && (Contents(), out) == LeaveStep(old(Contents()), origin, groupId)
    {
      if origin !in loggedIn {
        return Fail(LOGIN_REQUIRED);
      }
      var user := loggedIn[origin];
      var group := groupDB.GetGroup(groupId);
      out := Fail("Invalid request\n");
      if group != null {
        var removed := groupDB.RecordLeave(groupId, user);
        if removed {
          out := Ok("Left group\n");
        }
      }
    }

    method AcceptRequest(origin: Size, groupId: string, username: string) returns (out: Outcome, ghost pick: User)
      requires Valid()
      modifies groupDB`table, groupDB`allFiles, groupDB.groups.Values
      ensures groupDB.allFiles == old(groupDB.allFiles)
      ensures Valid() && (Contents(), out) == AcceptStep(old(Contents()), origin, groupId, username, pick)
    {
      pick := ANY.requester;
      if origin !in loggedIn {
        return Fail(LOGIN_REQUIRED), pick;
      }
      var group := groupDB.GetGroup(groupId);
      if group == null {
        out := Fail("Group does not exist\n");
      } else if group.owner != loggedIn[origin] {
        out := Fail("You are not the owner of the group\n");
      } else {
        var found;
        found, pick := groupDB.RecordAccept(groupId, username);
        out := if found then Ok("Request accepted\n") else Fail("This user has not sent a request\n");
      }
    }

    method ListRequests(origin: Size, groupId: string) returns (out: Outcome)
      requires Valid()
      ensures (Contents(), out) == ListRequestsStep(Contents(), origin, groupId)
    {
      if origin !in loggedIn {
        return Fail(LOGIN_REQUIRED);
      }
      var group := groupDB.GetGroup(groupId);
      if group == null {
        return Fail("Group does not exist\n");
      }
      assert group.Is(groupDB.table[groupId]);
      out := Done(false, Pending(group.requests));
    }

    method ProcessGroupRequest(origin: Size, kind: Kind, ss: StringStream) returns (out: Outcome, ghost pick: Pick)
      requires Valid() && GroupKind(kind)
      modifies groupDB, groupDB.groups.Values, ss
      ensures Valid()
      ensures fresh(groupDB.groups.Values - old(groupDB.groups.Values))
      ensures groupDB.allFiles == old(groupDB.allFiles)
      ensures (Contents(), out) == Step(old(Contents()), Call(origin, Decode(kind, old(ss.state))), pick)
    {
      hide ReadWord, Step, Decode, JoinStep, LeaveStep, AcceptStep, CreateGroupStep, ListRequestsStep;
      hide Server.Valid, Server.Contents;
      pick := ANY;
      ghost var before, args := Contents(), ss.state;
      if kind == LIST_GROUPS {
        GroupStep(before, origin, kind, args, pick);
        GroupKeys();
        return Done(false, Groups(groupDB.groups.Keys)), pick;
      }
      var groupId := ss.NextWord();
      match kind {
        case CREATE_GROUP => out := CreateGroup(origin, groupId);
        case JOIN_GROUP => out := JoinGroup(origin, groupId);
        case LEAVE_GROUP => out := LeaveGroup(origin, groupId);
        case LIST_REQUESTS =>
          out := ListRequests(origin, groupId);
        case ACCEPT_REQUEST =>
          var username := ss.NextWord();
          ghost var user;
          out, user := AcceptRequest(origin, groupId, username);
          pick := ANY.(requester := user);
      }
      GroupStep(before, origin, kind, args, pick);
    }

    lemma GroupKeys()
      requires Valid()
      ensures groupDB.groups.Keys == Contents().groups.Keys
    {
    }

    /** The step of a group request, in the order in which the handler reads its arguments. */
    lemma GroupStep(s: State, origin: Size, kind: Kind, args: Stream, pick: Pick)
      requires GroupKind(kind)
      ensures var (groupId, rest) := ReadWord(args);
        Step(s, Call(origin, Decode(kind, args)), pick) ==
          match kind
          case CREATE_GROUP => CreateGroupStep(s, origin, groupId)
          case JOIN_GROUP => JoinStep(s, origin, groupId)
          case LEAVE_GROUP => LeaveStep(s, origin, groupId)
          case LIST_REQUESTS => ListRequestsStep(s, origin, groupId)
          case ACCEPT_REQUEST => AcceptStep(s, origin, groupId, ReadWord(rest).0, pick.requester)
          case _ => (s, Done(false, Groups(s.groups.Keys)))
    {
      hide ReadWord, CreateGroupStep, JoinStep, LeaveStep, ListRequestsStep, AcceptStep;
    }

    // ---- File requests ----

    /** The checks that all file requests begin with. */
    method GuardFileRequest(origin: Size, groupId: string) returns (refusal: Option<string>)
      requires Valid()
      ensures refusal == FileGuard(Contents(), origin, groupId)
      ensures refusal.None? <==> FileRights.Entitled(Contents(), origin, groupId)
    {
      if origin !in loggedIn {
        return Some(LOGIN_REQUIRED);
      }
      var group := groupDB.GetGroup(groupId);
      if group == null {
        return Some("Group not found\n");
      }
      assert group.Is(groupDB.table[groupId]);
      if !group.IsMember(loggedIn[origin]) {
        return Some("You are not a member of this group\n");
      }
      refusal := None;
    }

    /** The upload branch; the exceptions of its two parses decide before anything is changed. */
    method Upload(origin: Size, groupId: string, ss: StringStream) returns (out: Outcome, ghost unset: Size)
      requires Valid() && FileGuard(Contents(), origin, groupId).None?
      modifies groupDB`table, groupDB`allFiles, groupDB.groups.Values, groupDB.allFiles`seeders, ss
      ensures fresh(groupDB.allFiles - old(groupDB.allFiles))
      ensures Valid()
      ensures (Contents(), out) ==
        UploadStep(old(Contents()), origin, groupId, WithSize(ReadUploadArgs(old(ss.state)), unset))
    {
      hide ReadUploadArgs, WithSize, AddFile, AddSeeder, FileGuard;
      MembersHaveGroups(origin, groupId);
      var args;
      args, unset := ReadUpload(ss);
      match args {
        case Rejected => out := Fail("Invalid request\n");
        case Escapes => out := Escaped;
        case Described(endpoint, info, _) =>
          var added := groupDB.RecordUpload(groupId, endpoint, info);
          out := if added then Ok("File uploaded\n") else Fail("File already exists. Added you as a seeder\n");
      }
    }

    lemma MembersHaveGroups(origin: Size, groupId: string)
      requires Valid() && FileGuard(Contents(), origin, groupId).None?
      ensures groupId in groupDB.groups
    {
    }

    method ListFiles(origin: Size, groupId: string) returns (out: Outcome)
      requires Valid() && FileGuard(Contents(), origin, groupId).None?
      ensures (Contents(), out) == ListFilesStep(Contents(), origin, groupId)
    {
      MembersHaveGroups(origin, groupId);
      var group := groupDB.groups[groupId];
      group.InfosOf(groupDB.table[groupId]);
      out := Done(false, Files(group.Infos()));
    }

    method Download(origin: Size, groupId: string, fileName: string) returns (out: Outcome, ghost pick: string)
      requires Valid() && FileGuard(Contents(), origin, groupId).None?
      ensures (Contents(), out) == DownloadStep(Contents(), origin, groupId, fileName, pick)
      ensures out.Success() == (Named(Contents().groups[groupId], fileName) != {})
      ensures out.Success() ==> out.reply.file.info.name == fileName
    {
      MembersHaveGroups(origin, groupId);
      pick := "";
      ghost var g := groupDB.table[groupId];
      var group := groupDB.groups[groupId];
      assert group.Is(g);
      var file := group.FindByName(fileName, g);
      if file == null {
        out := Fail("0 File not found\n");
      } else {
        pick := file.info.hash;
        out := Done(true, Found(StoredFile(file.info, file.seeders), groupId));
      }
    }

    method ProcessFileRequest(origin: Size, kind: Kind, ss: StringStream) returns (out: Outcome, ghost pick: Pick)
      requires Valid() && (kind.LIST_FILES? || kind.UPLOAD_FILE? || kind.DOWNLOAD_FILE?)
      modifies groupDB`table, groupDB`allFiles, groupDB.groups.Values, groupDB.allFiles`seeders, ss
      ensures fresh(groupDB.allFiles - old(groupDB.allFiles))
      ensures Valid()
      ensures (Contents(), out) == Step(old(Contents()), Call(origin, Decode(kind, old(ss.state))), pick)
    {
      hide ReadWord, ReadUploadArgs, FileGuard, Named, Step, Decode, UploadStep, DownloadStep, ListFilesStep;
      hide FileRights.Entitled;
      pick := ANY;
      ghost var before, args := Contents(), ss.state;
      var groupId := ss.NextWord();
      var refusal := GuardFileRequest(origin, groupId);
      if refusal.Some? {
        FileStep(before, origin, kind, args, pick);
        return Fail(refusal.value), pick;
      }
      match kind {
        case LIST_FILES => out := ListFiles(origin, groupId);
        case UPLOAD_FILE =>
          ghost var unset;
          out, unset := Upload(origin, groupId, ss);
          pick := ANY.(unset := unset);
        case DOWNLOAD_FILE =>
          var fileName := ss.NextWord();
          ghost var hash;
          out, hash := Download(origin, groupId, fileName);
          pick := ANY.(file := hash);
      }
      FileStep(before, origin, kind, args, pick);
    }

    /** The step of a file request, in the order in which the handler reads and checks. */
    lemma FileStep(s: State, origin: Size, kind: Kind, args: Stream, pick: Pick)
      requires kind.LIST_FILES? || kind.UPLOAD_FILE? || kind.DOWNLOAD_FILE?
      ensures var (groupId, rest) := ReadWord(args);
        var refusal := FileGuard(s, origin, groupId);
        Step(s, Call(origin, Decode(kind, args)), pick) ==
          if refusal.Some? then (s, Fail(refusal.value))
          else if kind.LIST_FILES? then ListFilesStep(s, origin, groupId)
          else if kind.UPLOAD_FILE? then UploadStep(s, origin, groupId, WithSize(ReadUploadArgs(rest), pick.unset))
          else DownloadStep(s, origin, groupId, ReadWord(rest).0, pick.file)
    {
      hide ReadWord, ReadUploadArgs, FileGuard;
    }

    // ---- A request ----

    /** The sync branch: the log entry by entry, each sent after the previous one was acknowledged. */
    method SendLog(fate: Fate) returns (sent: seq<string>, thrown: Option<TcpServer.Error>)
      ensures (sent, thrown) == Dumped(successful, fate)
    {
      sent := [];
      ghost var all := successful + ["done"];
      assert forall k :: 0 <= k <= |successful| ==> all[..k] == successful[..k];
      for i := 0 to |successful|
        invariant sent == successful[..i] && (fate.Breaks? ==> fate.after >= 2 * i)
      {
        if fate.Breaks? && fate.after == 2 * i {
          return sent, Some(fate.error);
        }
        sent := sent + [successful[i]];
        assert sent == successful[..i + 1];
        if fate.Breaks? && fate.after == 2 * i + 1 {
          return sent, Some(fate.error);
        }
      }
      if fate.Breaks? && fate.after == 2 * |successful| {
        return sent, Some(fate.error);
      }
      sent := sent + ["done"];
      thrown := None;
    }

    /** Discards the id and the command. */
    method SkipHeader(data: string) returns (ss: StringStream)
      ensures fresh(ss) && ss.state == Arguments(data)
    {
      ss := new StringStream(data);
      var id: Size := *;
      id := ss.NextSize(id);
      var command := ss.NextWord();
    }

    /** The reply is sent last, when the state has changed already. */
    method ProcessRequest(t: Transaction, doMirror: bool, fate: Fate)
      returns (out: Outcome, answer: Option<Reply>, sent: seq<string>, reaction: TcpServer.Reaction, ghost pick: Pick)
      requires Valid()
      modifies this`loggedIn, userDB
      modifies groupDB, groupDB.groups.Values, groupDB.allFiles`seeders
      ensures Valid() && (Contents(), out) == Step(old(Contents()), CallOf(t), pick)
      ensures sent == if t.kind.SYNC? then Dumped(successful, fate).0 else []
      ensures reaction == Reacts(Some(t), out, doMirror, successful, fate)
      ensures answer == Answered(t, out, doMirror, fate)
      ensures out.Done? && t.kind != SYNC && doMirror && (fate.Fine? || fate.after > 0) ==> answer == Some(out.reply)
      ensures !doMirror ==> answer == None
      ensures fresh(groupDB.groups.Values - old(groupDB.groups.Values))
      ensures fresh(groupDB.allFiles - old(groupDB.allFiles))
    {
      hide Step, Decode, Arguments, Dumped;
      var ss := SkipHeader(t.data);
      answer, sent, reaction, pick := None, [], TcpServer.Reaction(false, None), ANY;
      if UserKind(t.kind) {
        out := ProcessUserRequest(t.origin, t.kind, ss);
      } else if GroupKind(t.kind) {
        out, pick := ProcessGroupRequest(t.origin, t.kind, ss);
      } else if t.kind != SYNC {
        out, pick := ProcessFileRequest(t.origin, t.kind, ss);
      } else {
        var thrown;
        sent, thrown := SendLog(fate);
        reaction := TcpServer.Reaction(thrown.None?, thrown);
        out := Done(false, Nothing);
        SyncStep(Contents(), t, pick);
        return;
      }
      if out.Escaped? {
        reaction := TcpServer.Reaction(false, Some(TcpServer.Foreign));
      } else if doMirror {
        if Told(fate) {
          answer := Some(out.reply);
        } else {
          reaction := TcpServer.Reaction(false, Some(fate.error));
        }
      }
    }

    lemma SyncStep(s: State, t: Transaction, pick: Pick)
      requires t.kind.SYNC?
      ensures Step(s, CallOf(t), pick) == (s, Done(false, Nothing))
    {
    }

    // ---- tracker.cpp ----

    /** Sends to every other tracker; `up` tells which connections succeed. */
    method Mirror(line: string, trackers: seq<Endpoint>, up: seq<bool>) returns (sent: seq<(Endpoint, string)>)
      requires |trackers| == |up|
      ensures sent == Network.Mirrors(trackers, up, hash, self, "0" + line)
      ensures forall i :: 0 <= i < |trackers| && up[i] && hash(EndpointText(trackers[i])) != self ==>
        (trackers[i], "0" + line) in sent
      ensures forall m :: m in sent ==> m.0 in trackers && m.1 == "0" + line && hash(EndpointText(m.0)) != self
    {
      hide Network.Mirrors, EndpointText;
      sent := [];
      var message := "0" + line;
      ghost var all := Network.Mirrors(trackers, up, hash, self, message);
      assert trackers[0..] == trackers && up[0..] == up;
      for i := 0 to |trackers|
        invariant sent + Network.Mirrors(trackers[i..], up[i..], hash, self, message) == all
        invariant forall k :: 0 <= k < i && up[k] && hash(EndpointText(trackers[k])) != self ==>
          (trackers[k], message) in sent
        invariant forall m :: m in sent ==> m.0 in trackers && m.1 == message && hash(EndpointText(m.0)) != self
      {
        MirrorStep(trackers, up, message, i);
        if Network.GenerateId(hash, trackers[i]) == self {
          continue;
        }
        if up[i] {
          ghost var rest := Network.Mirrors(trackers[i + 1..], up[i + 1..], hash, self, message);
          assert sent + ([(trackers[i], message)] + rest) == (sent + [(trackers[i], message)]) + rest;
          sent := sent + [(trackers[i], message)];
        }
      }
      MirrorsEnd(message);
      assert sent == sent + [];
    }

    lemma MirrorStep(trackers: seq<Endpoint>, up: seq<bool>, message: string, i: nat)
      requires i < |trackers| == |up|
      ensures Network.Mirrors(trackers[i..], up[i..], hash, self, message) ==
        (if Network.GenerateId(hash, trackers[i]) != self && up[i] then [(trackers[i], message)] else [])
        + Network.Mirrors(trackers[i + 1..], up[i + 1..], hash, self, message)
    {
      assert trackers[i..][1..] == trackers[i + 1..] && up[i..][1..] == up[i + 1..];
    }

    lemma MirrorsEnd(message: string)
      ensures Network.Mirrors([], [], hash, self, message) == []
    {
    }

    /** What follows a success: the line goes on record, and a client's line to the other trackers. */
    method LogAndMirror(line: string, doMirror: bool, trackers: seq<Endpoint>, up: seq<bool>)
      returns (mirrors: seq<(Endpoint, string)>)
      requires Valid() && |trackers| == |up|
      modifies this`successful
      ensures Valid() && Contents() == old(Contents()) && successful == old(successful) + [line]
      ensures mirrors == if doMirror then Network.Mirrors(trackers, up, hash, self, "0" + line) else []
    {
      hide Network.Mirrors;
      mirrors := [];
      successful := successful + [line];
      if doMirror {
        mirrors := Mirror(line, trackers, up);
      }
    }

    /** The data callback of a tracker. */
    method ProcessData(message: string, trackers: seq<Endpoint>, up: seq<bool>, fate: Fate)
      returns (answer: Option<Reply>, dump: seq<string>, mirrors: seq<(Endpoint, string)>,
               reaction: TcpServer.Reaction, ghost pick: Pick)
      requires Valid() && message != "" && |trackers| == |up|
      modifies this`loggedIn, this`successful, userDB
      modifies groupDB, groupDB.groups.Values, groupDB.allFiles`seeders
      ensures Valid()
      ensures var (after, mirrored) := Network.Process(
          Network.Tracker(old(Contents()), old(successful)), message, pick, Told(fate));
        && after == Network.Tracker(Contents(), successful)
        && mirrors ==
          if mirrored.Some? then Network.Mirrors(trackers, up, hash, self, mirrored.value) else []
      ensures var transaction := ParseRequest(message[1..]);
        var out := StepLine(old(Contents()), Event(message[1..], pick, true)).1;
        && reaction == Reacts(transaction, out, message[0] == '1', old(successful), fate)
        && match transaction
           case None => dump == [] && answer == if Told(fate) then Some(Say("Unknown request")) else None
           case Some(t) =>
             && dump == (if t.kind.SYNC? then Dumped(old(successful), fate).0 else [])
             && answer == Answered(t, out, message[0] == '1', fate)
      ensures var (line, sent) := (message[1..], fate.Fine? || fate.after > 0);
        var out := StepLine(old(Contents()), Event(line, pick, true)).1;
        match DecodeLine(line)
        case None => sent ==> answer == Some(Say("Unknown request"))
        case Some(c) =>
          && (message[0] == '1' && c.request != Sync && out.Done? && sent ==> answer == Some(out.reply))
          && (message[0] != '1' ==> answer == None)
    {
      hide Step, CallOf, ParseRequest, Dumped, Network.Mirrors, Server.Valid, Server.Contents;
      var doMirror := message[0] == '1';
      var line := message[1..];
      answer, dump, mirrors, reaction, pick := None, [], [], TcpServer.Reaction(false, None), ANY;
      var transaction := ParseRequest(line);
      DecodedKind(line);
      if transaction.None? {
        if Told(fate) {
          answer := Some(Say("Unknown request"));
        } else {
          reaction := TcpServer.Reaction(false, Some(fate.error));
        }
        return;
      }
      var out;
      out, answer, dump, reaction, pick := ProcessRequest(transaction.value, doMirror, fate);
      SuccessIsNoSync(old(Contents()), transaction.value, pick);
      if reaction.throws.Some? {
        return;
      }
      if out.Success() {
        mirrors := LogAndMirror(line, doMirror, trackers, up);
      }
    }

    /** One entry received during a join: executed, but neither logged nor mirrored. */
    method Execute(message: string) returns (ghost e: Event)
      requires Valid() && ParseRequest(message).Some?
      modifies this`loggedIn, userDB
      modifies groupDB, groupDB.groups.Values, groupDB.allFiles`seeders
      ensures Valid() && e.line == message && e.told && Contents() == StepLine(old(Contents()), e).0
      ensures fresh(groupDB.groups.Values - old(groupDB.groups.Values))
      ensures fresh(groupDB.allFiles - old(groupDB.allFiles))
    {
      hide Step, CallOf;
      var t := ParseRequest(message).value;
      var out, answer, dump, reaction;
      ghost var pick;
      out, answer, dump, reaction, pick := ProcessRequest(t, false, Fine);
      e := Event(message, pick, true);
    }

    /** The receiving loop of a join, until an end marker comes (`done`) or the connection closes. */
    method Receive(messages: seq<string>, ghost before: seq<Event>) returns (done: bool, ghost rep: seq<Event>)
      requires Valid() && Contents() == After(before) && AllTold(before) && Syncable(messages)
      modifies this`loggedIn, userDB
      modifies groupDB, groupDB.groups.Values, groupDB.allFiles`seeders
      ensures Valid() && Contents() == After(rep) && AllTold(rep) && done == Ends(messages)
      ensures Lines(rep) == Lines(before) + Network.Received(messages)
      ensures fresh(groupDB.groups.Values - old(groupDB.groups.Values))
      ensures fresh(groupDB.allFiles - old(groupDB.allFiles))
    {
      hide StepLine, ParseRequest, After, Network.Received, Server.Valid, Server.Contents;
      rep := before;
      assert messages[0..] == messages;
      var i := 0;
      while i < |messages| && messages[i] != "" && messages[i] != "done"
        invariant i <= |messages| && Valid() && !Ends(messages[..i]) && |rep| >= |before|
        invariant fresh(groupDB.groups.Values - old(groupDB.groups.Values))
        invariant fresh(groupDB.allFiles - old(groupDB.allFiles))
        invariant Contents() == After(rep) && AllTold(rep)
        invariant Lines(rep) + Network.Received(messages[i..]) == Lines(before) + Network.Received(messages)
      {
        ReceivedStep(messages, i);
        NextIsReceived(Lines(rep), Lines(before), messages, i);
        ghost var e := Execute(messages[i]);
        AfterSnoc(rep, e);
        assert Lines(rep + [e]) == Lines(rep) + [messages[i]];
        rep := rep + [e];
        assert messages[..i + 1] == messages[..i] + [messages[i]];
        i := i + 1;
      }
      done := i < |messages|;
      if i < |messages| {
        ReceivedStep(messages, i);
      } else {
        assert messages[..i] == messages && messages[i..] == [];
        NothingReceived();
      }
      assert Network.Received(messages[i..]) == [];
      assert Lines(rep) + [] == Lines(rep);
    }

    lemma NothingReceived()
      ensures Network.Received([]) == []
    {
    }

    /** The message at hand is one that a joining tracker can take. */
    lemma NextIsReceived(done: seq<string>, before: seq<string>, messages: seq<string>, i: nat)
      requires i < |messages| && messages[i] != "" && messages[i] != "done" && Syncable(messages)
      requires done + Network.Received(messages[i..]) == before + Network.Received(messages) && |done| >= |before|
      requires Network.Received(messages[i..]) == [messages[i]] + Network.Received(messages[i + 1..])
      ensures ParseRequest(messages[i]).Some?
    {
      hide ParseRequest, Network.Received;
      var k := |done| - |before|;
      assert (done + Network.Received(messages[i..]))[|done|] == messages[i];
      assert (before + Network.Received(messages))[|before| + k] == Network.Received(messages)[k];
    }

    /** Joins from the first other tracker that accepts the connection and sends its whole log; `offers` holds what
        each sends before its connection closes, if it accepts one. What came from trackers that broke off stays. */
    method SyncWithOnlineTrackers(trackers: seq<Endpoint>, offers: seq<Option<seq<string>>>)
      returns (synced: bool, asked: seq<(Endpoint, string)>, ghost tried: nat, ghost rep: seq<Event>)
      requires Valid() && Contents() == EMPTY && |trackers| == |offers|
      requires forall i :: 0 <= i < |offers| && offers[i].Some? ==> Syncable(offers[i].value)
      modifies this`loggedIn, userDB
      modifies groupDB, groupDB.groups.Values, groupDB.allFiles`seeders
      ensures Valid() && Contents() == After(rep) && AllTold(rep)
      ensures tried <= |offers| && Lines(rep) == Taken(trackers, offers, hash, self, tried)
      ensures forall i :: 0 <= i < tried && hash(EndpointText(trackers[i])) != self && offers[i].Some? ==>
        (trackers[i], "0" + SyncLine(self)) in asked
      ensures forall a :: a in asked ==>
        a.0 in trackers && hash(EndpointText(a.0)) != self && a.1 == "0" + SyncLine(self)
      ensures synced ==>
        && tried > 0 && hash(EndpointText(trackers[tried - 1])) != self
        && offers[tried - 1].Some? && Ends(offers[tried - 1].value)
      ensures !synced ==> tried == |offers|
      ensures forall i :: 0 <= i < (if synced then tried - 1 else tried) ==>
        hash(EndpointText(trackers[i])) == self || offers[i].None? || !Ends(offers[i].value)
    {
      hide After, Network.Received, ParseRequest, Syncable, Ends, Server.Valid, Server.Contents, EndpointText;
      hide SyncLine;
      asked, tried, rep := [], 0, [];
      NothingYet();
      for i := 0 to |trackers|
        invariant Valid() && Contents() == After(rep) && AllTold(rep)
        invariant fresh(groupDB.groups.Values - old(groupDB.groups.Values))
        invariant fresh(groupDB.allFiles - old(groupDB.allFiles))
        invariant tried == i && Lines(rep) == Taken(trackers, offers, hash, self, i)
        invariant forall j :: 0 <= j < i && hash(EndpointText(trackers[j])) != self && offers[j].Some? ==>
          (trackers[j], "0" + SyncLine(self)) in asked
        invariant forall a :: a in asked ==>
          a.0 in trackers && hash(EndpointText(a.0)) != self && a.1 == "0" + SyncLine(self)
        invariant forall j :: 0 <= j < i ==>
          hash(EndpointText(trackers[j])) == self || offers[j].None? || !Ends(offers[j].value)
      {
        tried := i + 1;
        if Network.GenerateId(hash, trackers[i]) == self {
          continue;
        }
        if offers[i].Some? {
          asked := asked + [(trackers[i], "0" + SyncLine(self))];
          var done;
          done, rep := Receive(offers[i].value, rep);
          if done {
            return true, asked, tried, rep;
          }
        }
      }
      synced := false;
    }

    lemma NothingYet()
      ensures After([]) == EMPTY && Lines([]) == []
    {
    }
  }
}
