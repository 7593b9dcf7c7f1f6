/** The commands that a client hands on to its tracker as they are: from the user's line to the tracker's step. */
module Commands {
  import opened Streams
  import opened Codec
  import opened Requests
  import opened TrackerSpec
  import opened Runs
  import opened Network
  import opened ClientInput
  import opened Pieces
  import Delivery

  // ---- Words of a line ----

  /** The word at an index, empty if the line has not so many. */
  function Arg(words: seq<string>, k: nat): string {
    if k < |words| then words[k] else ""
  }

  lemma WordsInTurn(s: Stream)
    ensures var words := ReadAll(s);
      && ReadWord(s).0 == Arg(words, 0)
      && ReadWord(ReadWord(s).1).0 == Arg(words, 1)
      && ReadWord(ReadWord(ReadWord(s).1).1).0 == Arg(words, 2)
  {
    hide ReadWord;
    var s1 := ReadWord(s).1;
    var s2 := ReadWord(s1).1;
    FailedReadsNothing(s);
    FailedReadsNothing(s1);
    FailedReadsNothing(s2);
    AllInTurn(s);
    AllInTurn(s1);
    AllInTurn(s2);
  }

  lemma AllInTurn(s: Stream)
    ensures ReadAll(s) == if ReadWord(s).1.fail then [] else [ReadWord(s).0] + ReadAll(ReadWord(s).1)
  {
    hide ReadWord;
  }

  lemma FailedReadsNothing(s: Stream)
    ensures ReadWord(s).1.fail ==> ReadWord(s).0 == ""
    ensures s.fail ==> ReadWord(s).1.fail
  {
  }

  lemma GapIsSkipped(text: string)
    ensures ReadWord(Open(" " + text)) == ReadWord(Open(text))
  {
    assert (" " + text)[1..] == text;
    assert SkipSpaces(" " + text) == SkipSpaces(text);
  }

  // ---- What a command asks for ----

  /** A command that the client does not handle itself. */
  predicate Forwarded(kind: Kind) {
    !kind.UPLOAD_FILE? && !kind.DOWNLOAD_FILE?
  }

  function Asked(kind: Kind, first: string, second: string): Request
    requires Forwarded(kind)
  {
    match kind
    case CREATE_USER => CreateUser(first, second)
    case DELETE_USER => DeleteUser(first)
    case LIST_USERS => ListUsers
    case LOGIN => Login(first, second)
    case LOGOUT => Logout
    case CREATE_GROUP => CreateGroup(first)
    case JOIN_GROUP => JoinGroup(first)
    case LEAVE_GROUP => LeaveGroup(first)
    case LIST_GROUPS => ListGroups
    case LIST_REQUESTS => ListRequests(first)
    case ACCEPT_REQUEST => AcceptRequest(first, second)
    case LIST_FILES => ListFiles(first)
    case SYNC => Sync
  }

  lemma DecodesToAsked(kind: Kind, args: Stream)
    requires Forwarded(kind)
    ensures Decode(kind, args) == Asked(kind, ReadWord(args).0, ReadWord(ReadWord(args).1).0)
  {
    hide ReadWord;
  }

  lemma LineIsDecoded(id: Size, kind: Kind, text: string)
    requires Forwarded(kind) && ReadAll(Open(text)) != [] && ReadAll(Open(text))[0] == CommandWord(kind)
    ensures var words := ReadAll(Open(text));
      DecodeLine(Decimal(id) + (" " + text)) == Some(Call(id, Asked(kind, Arg(words, 1), Arg(words, 2))))
  {
    hide ReadWord, KindOf, CommandWord, Decode, ReadAll;
    var data := Decimal(id) + (" " + text);
    assert data == "" + Decimal(id) + (" " + text);
    ReadNumberBack("", id, " " + text);
    assert ReadSize(Open(data)) == (id, Open(" " + text));
    GapIsSkipped(text);
    WordsInTurn(Open(text));
    CommandWordsName(kind);
    DecodesToAsked(kind, ReadWord(Open(text)).1);
  }

  lemma OwnCommands(kind: Kind)
    requires Forwarded(kind)
    ensures CommandWord(kind) !in ["upload_file", "download_file", "show_downloads"]
  {
    var upload, download, show := "upload_file", "download_file", "show_downloads";
    assert |upload| == 11 && |download| == 13 && |show| == 14;
    assert upload[0] == 'u' && download[0] == 'd' && show[0] == 's';
  }

  /** Whatever words a user enters behind one of these commands: what goes out is marked as a client's request, and the
      tracker reads this client's id, that command and those words. */
  lemma CommandIsUnderstood(me: Identity, c: ClientState, i: Input, kind: Kind)
    requires Sized(i.disk) && Forwarded(kind)
    requires ReadAll(Open(i.text)) != [] && ReadAll(Open(i.text))[0] == CommandWord(kind)
    ensures var (c', entered) := Enter(me, c, i);
      var words := ReadAll(Open(i.text));
      && c' == c && entered.result == Some(true)
      && entered.sent.Some? && |entered.sent.value| > 0 && entered.sent.value[0] == '1'
      && DecodeLine(entered.sent.value[1..]) ==
           Some(Call(me.hash(EndpointText(me.endpoint)), Asked(kind, Arg(words, 1), Arg(words, 2))))
  {
    hide ReadWord, ReadAll, CommandWord, DecodeLine, Asked, Decimal;
    var line := Decimal(me.Id()) + (" " + i.text);
    WordsInTurn(Open(i.text));
    OwnCommands(kind);
    LineIsDecoded(me.Id(), kind, i.text);
    assert Decimal(me.Id()) + " " + i.text == line;
    assert ("1" + line)[1..] == line;
  }

  /** The client's own commands that need no tracker: a listing of the downloads, an upload of a file that cannot be
      opened, and a download without a destination change nothing and send nothing. */
  lemma NothingIsSent(me: Identity, c: ClientState, i: Input)
    requires Sized(i.disk)
    ensures var words := ReadAll(Open(i.text));
      && (Arg(words, 0) == "show_downloads" ==> Enter(me, c, i) == (c, Entered(None, Some(true))))
      && (Arg(words, 0) == "upload_file" && Arg(words, 1) !in i.disk ==>
            Enter(me, c, i) == (c, Entered(None, Some(false))))
      && (Arg(words, 0) == "download_file" && |words| < 4 ==> Enter(me, c, i) == (c, Entered(None, Some(false))))
  {
    hide ReadWord, ReadAll, TakeReply, UploadLine, DownloadLine, Describe;
    WordsInTurn(Open(i.text));
    FourthWord(Open(i.text));
  }

  lemma FourthWord(s: Stream)
    ensures ReadWord(ReadWord(ReadWord(ReadWord(s).1).1).1).0 == Arg(ReadAll(s), 3)
  {
    hide ReadWord;
    var s1 := ReadWord(s).1;
    var s2 := ReadWord(s1).1;
    var s3 := ReadWord(s2).1;
    FailedReadsNothing(s);
    FailedReadsNothing(s1);
    FailedReadsNothing(s2);
    FailedReadsNothing(s3);
    AllInTurn(s);
    AllInTurn(s1);
    AllInTurn(s2);
    AllInTurn(s3);
  }

  /** A response that offers no file leaves the client as it was; only one that cannot be read to its end throws. */
  lemma NothingIsOffered(me: Identity, c: ClientState, i: Input, path: string)
    requires !Delivery.ParseReply(i.response, i.unset).Offered?
    ensures var (c', result) := TakeReply(me, c, i, path);
      && c' == c
      && (Delivery.ParseReply(i.response, i.unset).Unreadable? ==> result == Some(true))
      && (Delivery.ParseReply(i.response, i.unset).Throws? ==> result == None)
      && (Delivery.ParseReply(i.response, i.unset).Absent? && !ReadInt(Open(i.response)).1.eof ==> result == Some(true))
      && (Delivery.ParseReply(i.response, i.unset).Absent? && ReadInt(Open(i.response)).1.eof ==> result == None)
  {
    hide ParseFile, ReadInt;
  }

  /** And so the tracker makes exactly that step; if it succeeds and its reply goes out, the line is recorded and goes
      to the other trackers, and otherwise neither. */
  lemma CommandTakesEffect(me: Identity, c: ClientState, i: Input, kind: Kind, t: Tracker, pick: Pick, told: bool)
    requires Sized(i.disk) && Forwarded(kind)
    requires ReadAll(Open(i.text)) != [] && ReadAll(Open(i.text))[0] == CommandWord(kind)
    ensures var (sent, words) := (Enter(me, c, i).1.sent, ReadAll(Open(i.text)));
      sent.Some? && |sent.value| > 0 &&
      var (t', mirrored) := Process(t, sent.value, pick, told);
      var call := Call(me.hash(EndpointText(me.endpoint)), Asked(kind, Arg(words, 1), Arg(words, 2)));
      var (s', out) := Step(t.state, call, pick);
      && t'.state == s'
      && (if out.Success() && told
          then t'.log == t.log + [sent.value[1..]] && mirrored == Some("0" + sent.value[1..])
          else t'.log == t.log && mirrored == None)
  {
    hide ReadAll, CommandWord, DecodeLine, Asked, Enter, Step;
    CommandIsUnderstood(me, c, i, kind);
  }
}
