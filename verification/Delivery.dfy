/** A file description on its whole way: the uploader's line, the tracker's table, the reply, the downloader. */
module Delivery {
  import opened Streams
  import opened Codec
  import opened Requests
  import opened TrackerSpec
  import opened TrackerInvariants
  import opened Runs
  import opened FileRights

  // ---- Tokens that came out of a stream ----

  lemma {:induction false} WordHasNoSpace(s: string)
    ensures NoSpace(Word(s))
  {
    if s != "" && !IsSpace(s[0]) {
      WordHasNoSpace(s[1..]);
    }
  }

  lemma ReadWordGivesWords(s: Stream)
    ensures NoSpace(ReadWord(s).0) && (!ReadWord(s).1.fail ==> IsWord(ReadWord(s).0))
  {
    WordHasNoSpace(SkipSpaces(s.rest));
    SkipSpacesStops(s.rest);
  }

  lemma {:induction false} ReadAllGivesWords(s: Stream)
    ensures forall i :: 0 <= i < |ReadAll(s)| ==> IsWord(ReadAll(s)[i])
    decreases |s.rest|
  {
    hide ReadWord;
    ReadWordGivesWords(s);
    var (w, s') := ReadWord(s);
    if !s'.fail {
      assert |s'.rest| < |s.rest| by {
        ReadWordConsumes(s);
      }
      ReadAllGivesWords(s');
    }
  }

  lemma ReadWordConsumes(s: Stream)
    ensures ReadWord(s).1.fail || |ReadWord(s).1.rest| < |s.rest|
  {
  }

  /** A description that a tracker can hold: everything but a possibly missing name is a word, and without a name
      there are no pieces. */
  predicate HeldInfo(info: FileInfo) {
    && NoSpace(info.name) && (info.name == "" ==> info.pieces == [])
    && (forall i :: 0 <= i < |info.pieces| ==> IsWord(info.pieces[i]))
    && info.hash == Concat(info.pieces)
  }

  lemma ParsedInfoIsHeld(text: string)
    ensures forall unset :: HeldInfo(ParseFileInfo(text, unset))
  {
    hide ReadWord, ReadSize, ReadAll;
    ReadWordGivesWords(ReadWord(Open(text)).1);
    var s2 := ReadWord(ReadWord(Open(text)).1).1;
    var s4 := ReadSize(ReadWord(s2).1).1;
    ReadAllGivesWords(ReadWord(ReadWord(s4).1).1);
    if s2.fail {
      NothingAfterFailure(s2);
    }
  }

  lemma NothingAfterFailure(s2: Stream)
    requires s2.fail
    ensures ReadAll(ReadWord(ReadWord(ReadSize(ReadWord(s2).1).1).1).1) == []
  {
  }

  lemma {:induction false} FindIsFirst(s: string, c: char)
    ensures Find(s, c).Some? ==> c !in s[..Find(s, c).value]
  {
    if s != "" && s[0] != c {
      FindIsFirst(s[1..], c);
      if Find(s[1..], c).Some? {
        var i := Find(s[1..], c).value;
        assert s[..i + 1] == [s[0]] + s[1..][..i];
      }
    }
  }

  lemma ParsedEndpointIsPlain(word: string)
    requires NoSpace(word)
    ensures ParseEndpoint(word).Parsed? ==> PlainEndpoint(ParseEndpoint(word).value)
  {
    FindIsFirst(word, ':');
  }

  lemma UploadArgsArePlain(s: Stream)
    ensures ReadUploadArgs(s).Described? ==>
      PlainEndpoint(ReadUploadArgs(s).endpoint) && HeldInfo(ReadUploadArgs(s).info)
  {
    hide ReadWord, ParseEndpoint, ParseFileInfo, HeldInfo, PlainEndpoint;
    var (word, s') := ReadWord(s);
    ReadWordGivesWords(s);
    ParsedEndpointIsPlain(word);
    if s'.Good() {
      ParsedInfoIsHeld(s'.rest);
    }
  }

  // ---- What a tracker holds ----

  predicate HeldFile(f: StoredFile) {
    HeldInfo(f.info) && forall e :: e in f.seeders ==> PlainEndpoint(e)
  }

  predicate HeldGroup(g: GroupState) {
    forall h :: h in g.files ==> HeldFile(g.files[h])
  }

  /** No file is in a group without an id. */
  predicate Held(s: State) {
    forall id :: id in s.groups ==>
      NoSpace(id) && HeldGroup(s.groups[id]) && (id == "" ==> s.groups[id].files == map[])
  }

  /** The arguments that matter here are words. */
  predicate PlainCall(c: Call) {
    match c.request
    case CreateGroup(id) => NoSpace(id)
    case Upload(id, Described(endpoint, info, _)) => id != "" && PlainEndpoint(endpoint) && HeldInfo(info)
    case _ => true
  }

  lemma DecodedCallsArePlain(line: string)
    requires DecodeLine(line).Some?
    ensures PlainCall(DecodeLine(line).value)
  {
    hide ParseRequest, ReadWord, ReadUploadArgs, PlainEndpoint, HeldInfo;
    var args := Arguments(line);
    ReadWordGivesWords(args);
    UploadArgsArePlain(ReadWord(args).1);
    if ReadWord(args).1.fail {
      FailedArgsAreRejected(ReadWord(args).1);
    }
    TransactionData(line);
  }

  /** A missing group id leaves nothing to read an endpoint from. */
  lemma FailedArgsAreRejected(s: Stream)
    requires s.fail
    ensures ReadUploadArgs(s) == Rejected
  {
    assert Find("", ':') == None;
  }

  lemma TransactionData(line: string)
    requires ParseRequest(line).Some?
    ensures ParseRequest(line).value.data == line
  {
  }

  lemma WithGroupHeld(s: State, id: string, g: GroupState)
    requires Held(s) && NoSpace(id) && HeldGroup(g) && (id == "" ==> g.files == map[])
    ensures Held(WithGroup(s, id, g))
  {
  }

  lemma UploadKeepsHeld(s: State, origin: Size, id: string, args: UploadArgs)
    requires Held(s) && (args.Described? ==> id != "" && PlainEndpoint(args.endpoint) && HeldInfo(args.info))
    ensures Held(UploadStep(s, origin, id, args).0)
  {
    hide PlainEndpoint, HeldInfo;
    if args.Described? && FileGuard(s, origin, id).None? {
      var g, h := s.groups[id], args.info.hash;
      assert HeldGroup(g);
      if h in g.files {
        WithGroupHeld(s, id, AddSeeder(g, h, args.endpoint));
      } else {
        WithGroupHeld(s, id, AddFile(g, args.info, args.endpoint));
      }
    }
  }

  lemma StepKeepsHeld(s: State, c: Call, pick: Pick)
    requires Held(s) && PlainCall(c)
    ensures Held(Step(s, c, pick).0)
  {
    hide NoSpace, HeldFile, Requesters, Chosen, UploadStep, CreateUserStep, DeleteUserStep, LoginStep, LogoutStep;
    if c.request.Upload? {
      UploadKeepsHeld(s, c.origin, c.request.groupId, WithSize(c.request.args, pick.unset));
    } else {
      UserRequestsKeepGroups(s, c);
    }
  }

  lemma {:induction false} RunIsHeld(run: seq<Event>)
    ensures Held(After(run))
  {
    hide Held, Step, PlainCall, DecodeLine;
    if run == [] {
      EmptyIsHeld();
    } else {
      var n := |run| - 1;
      RunIsHeld(run[..n]);
      match DecodeLine(run[n].line)
      case None =>
      case Some(c) =>
        DecodedCallsArePlain(run[n].line);
        StepKeepsHeld(After(run[..n]), c, run[n].pick);
    }
  }

  lemma EmptyIsHeld()
    ensures Held(EMPTY)
  {
  }

  // ---- Listings ----

  /** One order in which a hash set may be iterated. */
  predicate Enumerates<T(==)>(order: seq<T>, s: set<T>) {
    && (forall i, j :: 0 <= i < j < |order| ==> order[i] != order[j])
    && (set x | x in order) == s
  }

  function ListText<T>(order: seq<T>, line: T -> string): string {
    if order == [] then "" else ListText(order[..|order| - 1], line) + line(order[|order| - 1]) + "\n"
  }

  /** The loop of every listing: a line for each element, or a text of its own if there is none. */
  method ListingMessage<T(==, !new)>(s: set<T>, line: T -> string, none: string) returns (message: string)
    ensures exists order :: Enumerates(order, s) && message == if s == {} then none else ListText(order, line)
  {
    hide Enumerates, ListText;
    message := "";
    ghost var order: seq<T> := [];
    ghost var seen: set<T> := {};
    var left := s;
    EnumeratesNothingIff(order, seen);
    ListTextIsEmptyIff(order, line);
    while left != {}
      invariant seen + left == s && seen !! left
      invariant Enumerates(order, seen) && message == ListText(order, line)
      decreases |left|
    {
      var x :| x in left;
      left := left - {x};
      message := message + line(x) + "\n";
      EnumeratesOneMore(order, seen, x);
      ListTextSnoc(order, x, line);
      order, seen := order + [x], seen + {x};
    }
    assert seen == s;
    EnumeratesNothingIff(order, s);
    ListTextIsEmptyIff(order, line);
    if message == "" {
      message := none;
    }
  }

  lemma ListTextSnoc<T(!new)>(order: seq<T>, x: T, line: T -> string)
    ensures ListText(order + [x], line) == ListText(order, line) + line(x) + "\n"
  {
    assert (order + [x])[..|order|] == order;
  }

  lemma EnumeratesOneMore<T>(order: seq<T>, s: set<T>, x: T)
    requires Enumerates(order, s) && x !in s
    ensures Enumerates(order + [x], s + {x})
  {
    forall i | 0 <= i < |order| ensures order[i] in s {
      assert order[i] in set y | y in order;
    }
    assert (set y | y in order + [x]) == (set y | y in order) + {x};
  }

  lemma EnumeratesNothingIff<T>(order: seq<T>, s: set<T>)
    ensures Enumerates(order, s) ==> (order == [] <==> s == {})
    ensures order == [] && s == {} ==> Enumerates(order, s)
  {
    if order == [] {
      assert (set x | x in order) == {};
    } else {
      assert order[0] in set x | x in order;
      assert Enumerates(order, s) ==> order[0] in s;
    }
  }

  lemma ListTextIsEmptyIff<T(!new)>(order: seq<T>, line: T -> string)
    ensures ListText(order, line) == "" <==> order == []
  {
  }

  /** The message to a client: its reply in the order of the hash sets. */
  ghost predicate Renders(reply: Reply, message: string) {
    match reply
    case Say(text) => message == text
    case Users(names) => exists order ::
      Enumerates(order, names) && message == if names == {} then "No users found\n" else ListText(order, x => x)
    case Groups(ids) => exists order ::
      Enumerates(order, ids) && message == if ids == {} then "No groups found\n" else ListText(order, x => x)
    case Pending(users) => exists order ::
      Enumerates(order, users) && message ==
        if users == {} then "No pending join_requests\n" else ListText(order, (u: User) => u.name)
    case Files(infos) => exists order ::
      Enumerates(order, infos) && message == if infos == {} then "No files found\n" else ListText(order, FileInfoText)
    case Found(f, groupId) => exists order ::
      multiset(order) == f.seeders && message == ReplyText(order, groupId, f.info)
    case Nothing => message == ""
  }

  method Message(reply: Reply) returns (message: string)
    ensures Renders(reply, message)
  {
    match reply {
      case Say(text) => message := text;
      case Users(names) => message := ListingMessage(names, x => x, "No users found\n");
      case Groups(ids) => message := ListingMessage(ids, x => x, "No groups found\n");
      case Pending(users) => message := ListingMessage(users, (u: User) => u.name, "No pending join_requests\n");
      case Files(infos) => message := ListingMessage(infos, FileInfoText, "No files found\n");
      case Found(f, groupId) => message := FoundMessage(f, groupId);
      case Nothing => message := "";
    }
  }

  function NonEmpty(words: seq<string>): seq<string> {
    if words == [] then []
    else
      var n := |words| - 1;
      NonEmpty(words[..n]) + if words[n] == "" then [] else [words[n]]
  }

  /** A listing of tokens reads back as exactly what was listed, but for an empty one. */
  lemma {:induction false} ListingReadsBack(order: seq<string>, post: string)
    requires forall i :: 0 <= i < |order| ==> NoSpace(order[i])
    ensures ReadAll(Open(ListText(order, x => x) + post)) == NonEmpty(order) + ReadAll(Open(post))
    decreases |order|
  {
    hide ReadWord, ReadAll;
    if order == [] {
      assert ListText(order, x => x) + post == post;
    } else {
      var n := |order| - 1;
      var w, before := order[n], ListText(order[..n], x => x);
      RegroupLine(before, w, "\n", post);
      ListingReadsBack(order[..n], w + ("\n" + post));
      if w == "" {
        assert w + ("\n" + post) == "\n" + post;
        LineEndIsSkipped(post);
      } else {
        LineReadsBack(w, post);
        assert NonEmpty(order[..n]) + ([w] + ReadAll(Open(post))) == NonEmpty(order) + ReadAll(Open(post));
      }
    }
  }

  lemma RegroupLine(before: string, w: string, end: string, post: string)
    ensures before + w + end + post == before + (w + (end + post))
  {
  }

  lemma LineReadsBack(w: string, post: string)
    requires IsWord(w)
    ensures ReadAll(Open(w + ("\n" + post))) == [w] + ReadAll(Open(post))
  {
    hide ReadWord, ReadAll;
    assert "" + w + ("\n" + post) == w + ("\n" + post);
    ReadWordBack("", w, "\n" + post);
    ReadAllStep(Open(w + ("\n" + post)));
    LineEndIsSkipped(post);
  }

  lemma LineEndIsSkipped(post: string)
    ensures ReadAll(Open("\n" + post)) == ReadAll(Open(post))
  {
    assert ("\n" + post)[1..] == post;
    assert SkipSpaces("\n" + post) == SkipSpaces(post);
  }

  // ---- The reply ----

  /** The text of a successful download reply, when its seeders are printed in the given order. */
  function ReplyText(order: seq<Endpoint>, groupId: string, info: FileInfo): string {
    "1 " + FileText(order, groupId, info) + "\n"
  }

  /** The tracker's message for a file that was found. */
  method FoundMessage(f: StoredFile, groupId: string) returns (message: string)
    ensures exists order :: multiset(order) == f.seeders && message == ReplyText(order, groupId, f.info)
  {
    hide FileText;
    var text := FileToString(SharedFile(f.seeders, f.info, groupId));
    message := "1 " + text + "\n";
    ghost var order :| multiset(order) == f.seeders && text == FileText(order, groupId, f.info);
    assert message == ReplyText(order, groupId, f.info);
  }

  /** What the downloader makes of a reply. */
  datatype Answer = Unreadable | Absent | Offered(file: SharedFile) | Throws

  function ParseReply(response: string, unset: Unset): Answer {
    var (found, s) := ReadInt(Open(response));
    if s.fail then Unreadable
    else if found != 1 then Absent
    else
      match Remainder(s)
      case Parsed(rest) =>
        (match ParseFile(rest, unset)
         case Parsed(file) => Offered(file)
         case _ => Throws)
      case _ => Throws
  }

  /** Only a response that begins with the number 1 can offer anything. */
  lemma OtherNumbersAreAbsent(n: nat, post: string, unset: Unset)
    requires (post == "" || !IsDigit(post[0])) && n <= 0x7fff_ffff
    ensures ParseReply(Decimal(n) + post, unset).Absent? <==> n != 1
  {
    hide ParseFile, Decimal, ReadInt;
    LargeNumbers(n, post);
  }

  lemma ReplyHeader(order: seq<Endpoint>, groupId: string, info: FileInfo, unset: Unset)
    ensures ParseReply(ReplyText(order, groupId, info), unset) ==
      match ParseFile(" " + FileText(order, groupId, info) + "\n", unset)
      case Parsed(file) => Offered(file)
      case _ => Throws
  {
    hide ParseFile, FileText;
    var tail := " " + FileText(order, groupId, info) + "\n";
    assert Decimal(1) == "1";
    assert "1 " == "1" + " ";
    assert ReplyText(order, groupId, info) == "" + Decimal(1) + tail;
    ReadNumberBack("", 1, tail);
  }

  /** Named description, named group: the reply gives everything back. */
  lemma NamedFilesTravel(order: seq<Endpoint>, groupId: string, info: FileInfo, unset: Unset)
    requires IsWord(groupId) && PlainInfo(info) && |order| < SIZE_LIMIT
    requires forall i :: 0 <= i < |order| ==> PlainEndpoint(order[i])
    ensures ParseReply(ReplyText(order, groupId, info), unset) == Offered(SharedFile(multiset(order), info, groupId))
  {
    hide ParseReply, ReplyText, ParseFile, FileText;
    ReplyHeader(order, groupId, info, unset);
    FileRoundTrip(" ", order, groupId, info, "\n");
  }

  /** Without a name, the label of the size is taken for it. */
  lemma NamelessInfoIsMisread(pre: string, info: FileInfo, post: string)
    requires Blank(pre) && info.name == ""
    ensures forall unset :: ParseFileInfo(pre + FileInfoText(info) + post, unset).name == "Size:"
  {
    hide ReadSize, PiecesAfterSize;
    InfoTextAsTokens(pre, info, post);
    var t1 := InfoTail1(info, post);
    assert " " + info.name + t1 == " \t" + "Size:" + (" " + Decimal(info.size) + InfoTail3(info, post));
    ReadWordBack(pre, "File:", " " + info.name + t1);
    ReadWordBack(" \t", "Size:", " " + Decimal(info.size) + InfoTail3(info, post));
  }

  lemma NamelessFilesAreMisread(order: seq<Endpoint>, groupId: string, info: FileInfo, unset: Unset)
    requires IsWord(groupId) && info.name == "" && |order| < SIZE_LIMIT
    requires forall i :: 0 <= i < |order| ==> PlainEndpoint(order[i])
    ensures var file := ParseFile(" " + FileText(order, groupId, info) + "\n", unset);
      file.Parsed? && file.value.info.name == "Size:"
  {
    hide ParseFileInfo, FileInfoText, ParseSeeders, ReadWord, ReadNumber;
    var r3 := " " + FileInfoText(info) + "\n";
    var r2 := groupId + r3;
    var r1 := " " + SeedersText(order) + r2;
    Regroup(" ", Decimal(|order|), " ", SeedersText(order), groupId, FileInfoText(info), "\n");
    ReadNumberBack(" ", |order|, r1);
    SeedersRoundTrip(" ", order, r2);
    assert " " + r2 == " " + groupId + r3;
    ReadWordBack(" ", groupId, r3);
    NamelessInfoIsMisread(" ", info, "\n");
  }

  /** A group with an empty id never holds a file: a missing group id leaves no endpoint to read. */
  lemma {:induction false} EmptyGroupHoldsNothing(run: seq<Event>)
    ensures "" in After(run).groups ==> After(run).groups[""].files == map[]
  {
    hide After;
    RunIsHeld(run);
  }

  /** For every file of every reachable tracker, in whatever order its seeders are printed: the downloader
      gets back the name, size, pieces, hash, group and seeders, exactly when the name is not empty; and a file
      without a name has no pieces. */
  lemma {:induction false} ReplyTravelsIff(run: seq<Event>, id: string, hash: string, order: seq<Endpoint>,
                                           unset: Unset)
    requires id in After(run).groups && hash in After(run).groups[id].files
    requires multiset(order) == After(run).groups[id].files[hash].seeders && |order| < SIZE_LIMIT
    ensures var f := After(run).groups[id].files[hash];
      && (ParseReply(ReplyText(order, id, f.info), unset) == Offered(SharedFile(f.seeders, f.info, id))
          <==> f.info.name != "")
      && (f.info.name == "" ==> f.info.pieces == [])
  {
    hide ParseReply, ReplyText, ParseFile, FileText, After;
    RunIsHeld(run);
    var f := After(run).groups[id].files[hash];
    assert HeldGroup(After(run).groups[id]) && HeldFile(f);
    forall i | 0 <= i < |order| ensures PlainEndpoint(order[i]) {
      assert order[i] in multiset(order);
    }
    if f.info.name != "" {
      NamedFilesTravel(order, id, f.info, unset);
    } else {
      ReplyHeader(order, id, f.info, unset);
      NamelessFilesAreMisread(order, id, f.info, unset);
    }
  }

  /** From the uploader's description to the downloader's: a first upload by a member stores exactly what was
      described, and from any later state of that tracker the reply about it parses back to exactly that. */
  lemma UploadReachesDownloader(run: seq<Event>, id: Size, groupId: string, endpoint: Endpoint, info: FileInfo,
                                pick: Pick, told: bool, later: seq<Event>, order: seq<Endpoint>, unset: Unset)
    requires IsWord(groupId) && PlainEndpoint(endpoint) && PlainInfo(info)
    requires Entitled(After(run), id, groupId) && info.hash !in After(run).groups[groupId].files
    ensures var upload := Event(UploadLine(id, groupId, endpoint, info), pick, told);
      var now := After(run + [upload] + later);
      && StepLine(After(run), upload).1 == Ok("File uploaded\n")
      && groupId in now.groups && info.hash in now.groups[groupId].files
      && now.groups[groupId].files[info.hash].info == info
      && endpoint in now.groups[groupId].files[info.hash].seeders
      && (multiset(order) == now.groups[groupId].files[info.hash].seeders && |order| < SIZE_LIMIT ==>
            ParseReply(ReplyText(order, groupId, info), unset) ==
              Offered(SharedFile(multiset(order), info, groupId)))
  {
    var upload := Event(UploadLine(id, groupId, endpoint, info), pick, told);
    UploadIsStored(run, id, groupId, endpoint, info, pick, told);
    hide ParseReply, ReplyText, After, UploadLine, StepLine;
    var all := run + [upload] + later;
    assert all[..|run| + 1] == run + [upload];
    RunGrows(all, |run| + 1);
    var before, now := After(run + [upload]), After(all);
    assert GroupGrows(before.groups[groupId], now.groups[groupId]);
    var f := now.groups[groupId].files[info.hash];
    assert endpoint in before.groups[groupId].files[info.hash].seeders;
    if multiset(order) == f.seeders && |order| < SIZE_LIMIT {
      ReplyTravelsIff(all, groupId, info.hash, order, unset);
    }
  }

  lemma UploadIsStored(run: seq<Event>, id: Size, groupId: string, endpoint: Endpoint, info: FileInfo, pick: Pick,
                       told: bool)
    requires IsWord(groupId) && PlainEndpoint(endpoint) && PlainInfo(info)
    requires Entitled(After(run), id, groupId) && info.hash !in After(run).groups[groupId].files
    ensures var upload := Event(UploadLine(id, groupId, endpoint, info), pick, told);
      var s := After(run + [upload]);
      && StepLine(After(run), upload).1 == Ok("File uploaded\n")
      && groupId in s.groups && info.hash in s.groups[groupId].files
      && s.groups[groupId].files[info.hash] == StoredFile(info, multiset{endpoint})
  {
    hide UploadLine, DecodeLine, After, PlainEndpoint, PlainInfo;
    var upload := Event(UploadLine(id, groupId, endpoint, info), pick, told);
    UploadLineRoundTrip(id, groupId, endpoint, info);
    EntitledIsUnrefused(After(run), id, groupId);
    AfterSnoc(run, upload);
  }
}
