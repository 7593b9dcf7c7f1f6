/** Requests to a tracker as text: parse_request.cpp, the argument reads of the tracker's
    process_request.cpp, and the lines that the client's process_input.cpp composes.
 */
module Requests {
  import opened Streams
  import opened Codec

  /** The request variants of transaction.hpp. */
  datatype Kind =
    | CREATE_USER | DELETE_USER | LIST_USERS | LOGIN | LOGOUT
    | CREATE_GROUP | JOIN_GROUP | LEAVE_GROUP | LIST_GROUPS | LIST_REQUESTS | ACCEPT_REQUEST
    | LIST_FILES | UPLOAD_FILE | DOWNLOAD_FILE
    | SYNC

  /** The outcome is kept by the tracker, not here: a request to be processed. */
  datatype Transaction = Transaction(origin: Size, kind: Kind, data: string)

  function KindOf(word: string): Option<Kind> {
    match word
    case "create_user" => Some(CREATE_USER)
    case "delete_user" => Some(DELETE_USER)
    case "list_users" => Some(LIST_USERS)
    case "login" => Some(LOGIN)
    case "logout" => Some(LOGOUT)
    case "create_group" => Some(CREATE_GROUP)
    case "join_group" => Some(JOIN_GROUP)
    case "leave_group" => Some(LEAVE_GROUP)
    case "list_groups" => Some(LIST_GROUPS)
    case "list_requests" => Some(LIST_REQUESTS)
    case "accept_request" => Some(ACCEPT_REQUEST)
    case "list_files" => Some(LIST_FILES)
    case "upload_file" => Some(UPLOAD_FILE)
    case "download_file" => Some(DOWNLOAD_FILE)
    case "sync" => Some(SYNC)
    case _ => None
  }

  function CommandWord(kind: Kind): string {
    match kind
    case CREATE_USER => "create_user"
    case DELETE_USER => "delete_user"
    case LIST_USERS => "list_users"
    case LOGIN => "login"
    case LOGOUT => "logout"
    case CREATE_GROUP => "create_group"
    case JOIN_GROUP => "join_group"
    case LEAVE_GROUP => "leave_group"
    case LIST_GROUPS => "list_groups"
    case LIST_REQUESTS => "list_requests"
    case ACCEPT_REQUEST => "accept_request"
    case LIST_FILES => "list_files"
    case UPLOAD_FILE => "upload_file"
    case DOWNLOAD_FILE => "download_file"
    case SYNC => "sync"
  }

  predicate UserKind(kind: Kind) {
    kind.CREATE_USER? || kind.DELETE_USER? || kind.LIST_USERS? || kind.LOGIN? || kind.LOGOUT?
  }

  predicate GroupKind(kind: Kind) {
    || kind.CREATE_GROUP? || kind.JOIN_GROUP? || kind.LEAVE_GROUP?
    || kind.LIST_GROUPS? || kind.LIST_REQUESTS? || kind.ACCEPT_REQUEST?
  }

  lemma UserWordsName(kind: Kind)
    requires UserKind(kind)
    ensures KindOf(CommandWord(kind)) == Some(kind)
  {
  }

  lemma GroupWordsName(kind: Kind)
    requires GroupKind(kind)
    ensures KindOf(CommandWord(kind)) == Some(kind)
  {
  }

  lemma FileWordsName(kind: Kind)
    requires kind.LIST_FILES? || kind.UPLOAD_FILE? || kind.DOWNLOAD_FILE? || kind.SYNC?
    ensures KindOf(CommandWord(kind)) == Some(kind)
  {
  }

  lemma UserWordsAreWords(kind: Kind)
    requires UserKind(kind)
    ensures IsWord(CommandWord(kind))
  {
  }

  lemma GroupWordsAreWords(kind: Kind)
    requires GroupKind(kind)
    ensures IsWord(CommandWord(kind))
  {
  }

  lemma FileWordsAreWords(kind: Kind)
    requires kind.LIST_FILES? || kind.UPLOAD_FILE? || kind.DOWNLOAD_FILE? || kind.SYNC?
    ensures IsWord(CommandWord(kind))
  {
  }

  /** Each command word is a token that names exactly one kind. */
  lemma CommandWordsName(kind: Kind)
    ensures IsWord(CommandWord(kind)) && KindOf(CommandWord(kind)) == Some(kind)
  {
    hide KindOf, CommandWord, IsWord;
    if UserKind(kind) {
      UserWordsName(kind);
      UserWordsAreWords(kind);
    } else if GroupKind(kind) {
      GroupWordsName(kind);
      GroupWordsAreWords(kind);
    } else {
      FileWordsName(kind);
      FileWordsAreWords(kind);
    }
  }

  /** None is the UnknownRequest exception. */
  function ParseRequest(data: string): Option<Transaction> {
    var (id, s) := ReadSize(Open(data));
    match KindOf(ReadWord(s).0)
    case None => None
    case Some(kind) => Some(Transaction(id, kind, data))
  }

  // ---- Arguments ----

  /** What the two parses of an upload give: both values, with a size of 0 where the text ends before it
      (`sized` is false), or the exception of the first that throws.
      The handler catches an invalid argument; an out-of-range one leaves the handler. */
  datatype UploadArgs = Described(endpoint: Endpoint, info: FileInfo, sized: bool) | Rejected | Escapes

  /** A request with the arguments that its handler extracts. */
  datatype Request =
    | CreateUser(username: string, password: string)
    | DeleteUser(username: string)
    | ListUsers
    | Login(username: string, password: string)
    | Logout
    | CreateGroup(groupId: string)
    | JoinGroup(groupId: string)
    | LeaveGroup(groupId: string)
    | ListGroups
    | ListRequests(groupId: string)
    | AcceptRequest(groupId: string, username: string)
    | ListFiles(groupId: string)
    | Upload(groupId: string, args: UploadArgs)
    | Download(groupId: string, fileName: string)
    | Sync

  datatype Call = Call(origin: Size, request: Request)

  /** The stream of a request once its id and its command are discarded. */
  function Arguments(data: string): Stream {
    ReadWord(ReadSize(Open(data)).1).1
  }

  function ReadUploadArgs(s: Stream): UploadArgs {
    var (word, s') := ReadWord(s);
    match ParseEndpoint(word)
    case InvalidArgument => Rejected
    case OutOfRange => Escapes
    case Parsed(endpoint) =>
      match Remainder(s')
      case Parsed(text) => Described(endpoint, ParseFileInfo(text, 0), HasSize(text))
      case _ => Escapes
  }

  function Decode(kind: Kind, args: Stream): Request {
    var (first, s) := ReadWord(args);
    match kind
    case CREATE_USER => CreateUser(first, ReadWord(s).0)
    case DELETE_USER => DeleteUser(first)
    case LIST_USERS => ListUsers
    case LOGIN => Login(first, ReadWord(s).0)
    case LOGOUT => Logout
    case CREATE_GROUP => CreateGroup(first)
    case JOIN_GROUP => JoinGroup(first)
    case LEAVE_GROUP => LeaveGroup(first)
    case LIST_GROUPS => ListGroups
    case LIST_REQUESTS => ListRequests(first)
    case ACCEPT_REQUEST => AcceptRequest(first, ReadWord(s).0)
    case LIST_FILES => ListFiles(first)
    case UPLOAD_FILE => Upload(first, ReadUploadArgs(s))
    case DOWNLOAD_FILE => Download(first, ReadWord(s).0)
    case SYNC => Sync
  }

  function CallOf(t: Transaction): Call {
    Call(t.origin, Decode(t.kind, Arguments(t.data)))
  }

  function DecodeLine(data: string): Option<Call> {
    match ParseRequest(data)
    case None => None
    case Some(t) => Some(CallOf(t))
  }

  /** Neither an empty message nor the end marker of a sync can be taken for a request. */
  lemma MarkersAreNotRequests()
    ensures DecodeLine("").None? && DecodeLine("done").None?
  {
    SkipSpacesPrefix("", "done");
    assert SkipSpaces("done") == "done" by { assert "" + "done" == "done"; }
    assert Digits("done") == "";
    assert KindOf("").None?;
  }

  // ---- Lines composed by the client and by a joining tracker, without their mirror flag ----

  function UploadLine(id: Size, groupId: string, endpoint: Endpoint, info: FileInfo): string {
    Decimal(id) + " " + "upload_file" + " " + groupId + " " + EndpointText(endpoint) + " " + FileInfoText(info)
  }

  function DownloadLine(id: Size, groupId: string, fileName: string): string {
    Decimal(id) + " " + "download_file" + " " + groupId + " " + fileName
  }

  function SyncLine(id: Size): string {
    Decimal(id) + " sync \n"
  }

  /** A line that starts with an id and a command is parsed to them, and leaves the rest to the handler. */
  lemma HeaderRoundTrip(id: Size, kind: Kind, rest: string)
    requires rest != "" && EndsWord(rest)
    ensures DecodeLine(Decimal(id) + (" " + CommandWord(kind) + rest)) == Some(Call(id, Decode(kind, Open(rest))))
  {
    hide KindOf;
    CommandWordsName(kind);
    HeaderReads(id, CommandWord(kind), rest);
  }

  lemma HeaderReads(id: Size, command: string, rest: string)
    requires IsWord(command) && rest != "" && EndsWord(rest)
    ensures var data := Decimal(id) + (" " + command + rest);
      && ReadSize(Open(data)).0 == id
      && ReadWord(ReadSize(Open(data)).1) == (command, Open(rest))
  {
    var tail := " " + command + rest;
    assert "" + Decimal(id) + tail == Decimal(id) + tail;
    ReadNumberBack("", id, tail);
    ReadWordBack(" ", command, rest);
  }

  lemma RegroupUpload(id: string, gap: string, command: string, groupId: string, endpoint: string, info: string)
    ensures id + gap + command + gap + groupId + gap + endpoint + gap + info
         == id + (gap + command + (gap + groupId + (gap + endpoint + (gap + info))))
  {
  }

  lemma UploadArgsRoundTrip(endpoint: Endpoint, info: FileInfo)
    requires PlainEndpoint(endpoint) && PlainInfo(info)
    ensures ReadUploadArgs(Open(" " + EndpointText(endpoint) + (" " + FileInfoText(info))))
         == Described(endpoint, info, true)
  {
    var text := " " + FileInfoText(info);
    EndpointTextIsWord(endpoint);
    ReadWordBack(" ", EndpointText(endpoint), text);
    EndpointRoundTrip(endpoint);
    assert text == " " + FileInfoText(info) + "";
    FileInfoRoundTrip(" ", info, "");
  }

  /** Arguments that end right behind the endpoint throw out of the handler; a port that no `int` holds does too; an
      endpoint that is none is refused. */
  lemma BadUploadArgs(endpoint: Endpoint, word: string, rest: string)
    requires PlainEndpoint(endpoint) && IsWord(word) && EndsWord(rest)
    ensures ReadUploadArgs(Open(" " + EndpointText(endpoint))) == Escapes
    ensures ParseEndpoint(word) == OutOfRange ==> ReadUploadArgs(Open(" " + word + rest)) == Escapes
    ensures ParseEndpoint(word) == InvalidArgument ==> ReadUploadArgs(Open(" " + word + rest)) == Rejected
  {
    hide ReadWord, ParseEndpoint, ParseFileInfo;
    EndpointTextIsWord(endpoint);
    assert " " + EndpointText(endpoint) + "" == " " + EndpointText(endpoint);
    ReadWordBack(" ", EndpointText(endpoint), "");
    EndpointRoundTrip(endpoint);
    ReadWordBack(" ", word, rest);
  }

  /** The tracker decodes the client's upload line to exactly what the client described. */
  lemma UploadLineRoundTrip(id: Size, groupId: string, endpoint: Endpoint, info: FileInfo)
    requires IsWord(groupId) && PlainEndpoint(endpoint) && PlainInfo(info)
    ensures DecodeLine(UploadLine(id, groupId, endpoint, info))
         == Some(Call(id, Upload(groupId, Described(endpoint, info, true))))
  {
    hide KindOf, ReadWord, ReadUploadArgs, FileInfoText, Decimal, EndpointText;
    var args := " " + EndpointText(endpoint) + (" " + FileInfoText(info));
    RegroupUpload(Decimal(id), " ", "upload_file", groupId, EndpointText(endpoint), FileInfoText(info));
    HeaderRoundTrip(id, UPLOAD_FILE, " " + groupId + args);
    ReadWordBack(" ", groupId, args);
    UploadArgsRoundTrip(endpoint, info);
  }

  lemma DownloadLineRoundTrip(id: Size, groupId: string, fileName: string)
    requires IsWord(groupId) && IsWord(fileName)
    ensures DecodeLine(DownloadLine(id, groupId, fileName)) == Some(Call(id, Download(groupId, fileName)))
  {
    hide KindOf, ReadWord, Decimal;
    var gap, id', command := " ", Decimal(id), "download_file";
    assert id' + gap + command + gap + groupId + gap + fileName
        == id' + (gap + command + (gap + groupId + (gap + fileName)));
    HeaderRoundTrip(id, DOWNLOAD_FILE, " " + groupId + (" " + fileName));
    ReadWordBack(" ", groupId, " " + fileName);
    assert " " + fileName == " " + fileName + "";
    ReadWordBack(" ", fileName, "");
  }

  lemma SyncLineRoundTrip(id: Size)
    ensures DecodeLine(SyncLine(id)) == Some(Call(id, Sync))
  {
    hide DecodeLine, Decimal, ReadWord;
    RegroupSync(Decimal(id));
    HeaderRoundTrip(id, SYNC, " \n");
  }

  lemma RegroupSync(id: string)
    ensures id + " sync \n" == id + (" " + "sync" + " \n")
    ensures " \n" != "" && EndsWord(" \n")
  {
  }
}
