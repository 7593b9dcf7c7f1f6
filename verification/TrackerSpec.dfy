/** The tracker as a state machine on values: one function from a state and a request to the next state.

    The original keeps users, groups and files behind shared pointers. A User object is never changed, so it is
    a value here, told apart from other users by `id`: the number of the successful create that allocated it.
    The classes in module TrackerObjects hold the same state in mutable objects and are proved to follow `Step`.
 */
module TrackerSpec {
  import opened Streams
  import opened Codec
  import opened Requests

  datatype User = User(id: nat, name: string, password: string)

  /** A file of a group; each upload allocates a new endpoint object, so seeders may repeat. */
  datatype StoredFile = StoredFile(info: FileInfo, seeders: multiset<Endpoint>)

  /** Files of one group are told apart by their hash. */
  datatype GroupState = GroupState(
    owner: User,
    users: set<User>,
    requests: set<User>,
    files: map<string, StoredFile>)

  datatype State = State(
    users: map<string, User>,
    created: nat,
    sessions: map<Size, User>,
    groups: map<string, GroupState>)

  const EMPTY: State := State(map[], 0, map[], map[])

  /** What the client is told. Listings and found files come out of hash sets and are printed in their order, as
      module Delivery says. */
  datatype Reply =
    | Say(text: string)
    | Users(names: set<string>)
    | Groups(ids: set<string>)
    | Pending(users: set<User>)
    | Files(infos: set<FileInfo>)
    | Found(file: StoredFile, groupId: string)
    | Nothing

  /** An escaped call threw out of the handler: nothing is answered, logged or changed. */
  datatype Outcome = Done(success: bool, reply: Reply) | Escaped {
    predicate Success() {
      Done? && success
    }
  }

  /** What the original leaves open: where iteration over a hash set stops first, at the two places where its order
      can be seen, and what the variable for a size holds when the text of an upload ends before it. */
  datatype Pick = Pick(requester: User, file: string, unset: Size)

  /** For requests that leave nothing open. */
  const ANY: Pick := Pick(User(0, "", ""), "", 0)

  function Fail(text: string): Outcome {
    Done(false, Say(text))
  }

  function Ok(text: string): Outcome {
    Done(true, Say(text))
  }

  const LOGIN_REQUIRED := "You must be logged in" + " to perform this action\n"

  // ---- User requests ----

  function CreateUserStep(s: State, name: string, password: string): (State, Outcome) {
    if name == "" || password == "" then (s, Fail("Username or password cannot be empty\n"))
    else if name in s.users then (s, Fail("User already exists\n"))
    else
      (s.(users := s.users[name := User(s.created, name, password)], created := s.created + 1), Ok("User created\n"))
  }

  function DeleteUserStep(s: State, name: string): (State, Outcome) {
    if name !in s.users then (s, Fail("User does not exist\n"))
    else (s.(users := s.users - {name}), Ok("User deleted\n"))
  }

  function LoginStep(s: State, origin: Size, name: string, password: string): (State, Outcome) {
    if name == "" || password == "" then (s, Fail("Username or password cannot be empty\n"))
    else if origin in s.sessions then (s, Fail(s.sessions[origin].name + " is already logged in\n"))
    else if name !in s.users then (s, Fail("User does not exist\n"))
    else if s.users[name].password != password then (s, Fail("Login failed\n"))
    else (s.(sessions := s.sessions[origin := s.users[name]]), Ok("Login successful\n"))
  }

  function LogoutStep(s: State, origin: Size): (State, Outcome) {
    if origin !in s.sessions then (s, Fail("Logout failed\n"))
    else (s.(sessions := s.sessions - {origin}), Ok("Logout successful\n"))
  }

  // ---- Group requests ----

  predicate HasMember(g: GroupState, u: User) {
    u == g.owner || u in g.users
  }

  function WithGroup(s: State, groupId: string, g: GroupState): State {
    s.(groups := s.groups[groupId := g])
  }

  function CreateGroupStep(s: State, origin: Size, groupId: string): (State, Outcome) {
    if origin !in s.sessions then (s, Fail(LOGIN_REQUIRED))
    else if groupId in s.groups then (s, Fail("Group already exists\n"))
    else (WithGroup(s, groupId, GroupState(s.sessions[origin], {}, {}, map[])), Ok("Group created\n"))
  }

  function JoinStep(s: State, origin: Size, groupId: string): (State, Outcome) {
    if origin !in s.sessions then (s, Fail(LOGIN_REQUIRED))
    else if groupId !in s.groups || HasMember(s.groups[groupId], s.sessions[origin]) then
      (s, Fail("Invalid request\n"))
    else
      var g := s.groups[groupId];
      (WithGroup(s, groupId, g.(requests := g.requests + {s.sessions[origin]})), Ok("Join request sent\n"))
  }

  function LeaveStep(s: State, origin: Size, groupId: string): (State, Outcome) {
    if origin !in s.sessions then (s, Fail(LOGIN_REQUIRED))
    else if groupId !in s.groups || s.sessions[origin] !in s.groups[groupId].users then
      (s, Fail("Invalid request\n"))
    else
      var g := s.groups[groupId];
      (WithGroup(s, groupId, g.(users := g.users - {s.sessions[origin]})), Ok("Left group\n"))
  }

  function Requesters(g: GroupState, name: string): set<User> {
    set u | u in g.requests && u.name == name
  }

  /** The requester that the loop over the join requests meets first. */
  ghost function Chosen(candidates: set<User>, pick: User): User
    requires candidates != {}
  {
    if pick in candidates then pick else (var u :| u in candidates; u)
  }

  function Admit(g: GroupState, u: User): GroupState {
    g.(users := g.users + {u}, requests := g.requests - {u})
  }

  ghost function AcceptStep(s: State, origin: Size, groupId: string, name: string, pick: User): (State, Outcome) {
    if origin !in s.sessions then (s, Fail(LOGIN_REQUIRED))
    else if groupId !in s.groups then (s, Fail("Group does not exist\n"))
    else if s.groups[groupId].owner != s.sessions[origin] then (s, Fail("You are not the owner of the group\n"))
    else
      var g := s.groups[groupId];
      if Requesters(g, name) == {} then (s, Fail("This user has not sent a request\n"))
      else (WithGroup(s, groupId, Admit(g, Chosen(Requesters(g, name), pick))), Ok("Request accepted\n"))
  }

  function ListRequestsStep(s: State, origin: Size, groupId: string): (State, Outcome) {
    if origin !in s.sessions then (s, Fail(LOGIN_REQUIRED))
    else if groupId !in s.groups then (s, Fail("Group does not exist\n"))
    else (s, Done(false, Pending(s.groups[groupId].requests)))
  }

  // ---- File requests ----

  /** The checks common to all file requests; None when they pass. */
  function FileGuard(s: State, origin: Size, groupId: string): (r: Option<string>) {
    if origin !in s.sessions then Some(LOGIN_REQUIRED)
    else if groupId !in s.groups then Some("Group not found\n")
    else if !HasMember(s.groups[groupId], s.sessions[origin]) then Some("You are not a member of this group\n")
    else None
  }

  function AddFile(g: GroupState, info: FileInfo, endpoint: Endpoint): GroupState {
    g.(files := g.files[info.hash := StoredFile(info, multiset{endpoint})])
  }

  function AddSeeder(g: GroupState, hash: string, endpoint: Endpoint): GroupState
    requires hash in g.files
  {
    var f := g.files[hash];
    g.(files := g.files[hash := f.(seeders := f.seeders + multiset{endpoint})])
  }

  function UploadStep(s: State, origin: Size, groupId: string, args: UploadArgs): (State, Outcome) {
    var refusal := FileGuard(s, origin, groupId);
    if refusal.Some? then (s, Fail(refusal.value))
    else
      match args
      case Rejected => (s, Fail("Invalid request\n"))
      case Escapes => (s, Escaped)
      case Described(endpoint, info, _) =>
        var g := s.groups[groupId];
        if info.hash in g.files then
          (WithGroup(s, groupId, AddSeeder(g, info.hash, endpoint)),
           Fail("File already exists. Added you as a seeder\n"))
        else (WithGroup(s, groupId, AddFile(g, info, endpoint)), Ok("File uploaded\n"))
  }

  /** The arguments with the size that is stored if the text has none. */
  function WithSize(args: UploadArgs, unset: Size): (filled: UploadArgs)
    ensures filled.Described? == args.Described?
    ensures args.Described? ==>
      && filled.endpoint == args.endpoint && filled.info == args.info.(size := filled.info.size)
      && filled.info.size == (if args.sized then args.info.size else unset)
  {
    match args
    case Described(endpoint, info, sized) => Described(endpoint, Filled(info, sized, unset), true)
    case _ => args
  }

  function Named(g: GroupState, name: string): set<string> {
    set h | h in g.files && g.files[h].info.name == name
  }

  ghost function ChosenFile(candidates: set<string>, pick: string): string
    requires candidates != {}
  {
    if pick in candidates then pick else (var h :| h in candidates; h)
  }

  ghost function DownloadStep(s: State, origin: Size, groupId: string, name: string, pick: string): (State, Outcome) {
    var refusal := FileGuard(s, origin, groupId);
    if refusal.Some? then (s, Fail(refusal.value))
    else
      var g := s.groups[groupId];
      var hashes := Named(g, name);
      if hashes == {} then (s, Fail("0 File not found\n"))
      else
        var h := ChosenFile(hashes, pick);
        assert h in hashes;
        (s, Done(true, Found(g.files[h], groupId)))
  }

  function Infos(g: GroupState): set<FileInfo> {
    set h | h in g.files :: g.files[h].info
  }

  function ListFilesStep(s: State, origin: Size, groupId: string): (State, Outcome) {
    var refusal := FileGuard(s, origin, groupId);
    if refusal.Some? then (s, Fail(refusal.value)) else (s, Done(false, Files(Infos(s.groups[groupId]))))
  }

  // ---- All requests ----

  ghost function Step(s: State, c: Call, pick: Pick): (State, Outcome) {
    match c.request
    case CreateUser(name, password) => CreateUserStep(s, name, password)
    case DeleteUser(name) => DeleteUserStep(s, name)
    case ListUsers => (s, Done(false, Users(s.users.Keys)))
    case Login(name, password) => LoginStep(s, c.origin, name, password)
    case Logout => LogoutStep(s, c.origin)
    case CreateGroup(g) => CreateGroupStep(s, c.origin, g)
    case JoinGroup(g) => JoinStep(s, c.origin, g)
    case LeaveGroup(g) => LeaveStep(s, c.origin, g)
    case ListGroups => (s, Done(false, Groups(s.groups.Keys)))
    case ListRequests(g) => ListRequestsStep(s, c.origin, g)
    case AcceptRequest(g, name) => AcceptStep(s, c.origin, g, name, pick.requester)
    case ListFiles(g) => ListFilesStep(s, c.origin, g)
    case Upload(g, args) => UploadStep(s, c.origin, g, WithSize(args, pick.unset))
    case Download(g, name) => DownloadStep(s, c.origin, g, name, pick.file)
    case Sync => (s, Done(false, Nothing))
  }
}
