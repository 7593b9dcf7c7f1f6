/** What a tracker says: why it refuses, what it lists, and what a client reads out of that. */
module Replies {
  import opened Streams
  import opened Codec
  import opened Requests
  import opened TrackerSpec
  import opened TrackerInvariants
  import opened Runs
  import opened FileRights
  import opened Delivery

  // ---- Refusals and confirmations ----

  /** What each answer to a user request says is the case, and nothing else is answered. */
  lemma UserAnswers(s: State, c: Call, pick: Pick)
    ensures var out := Step(s, c, pick).1;
      match c.request
      case CreateUser(name, password) => out ==
        if name != "" && password != "" && name !in s.users then Done(true, Say("User created\n"))
        else Done(false, Say(if name == "" || password == "" then "Username or password cannot be empty\n"
                             else "User already exists\n"))
      case DeleteUser(name) => out ==
        if name in s.users then Done(true, Say("User deleted\n")) else Done(false, Say("User does not exist\n"))
      case Login(name, password) =>
        && (out == Done(true, Say("Login successful\n")) <==>
              name != "" && password != "" && c.origin !in s.sessions && name in s.users
              && s.users[name].password == password)
        && (out == Done(false, Say("Login failed\n")) <==>
              name != "" && password != "" && c.origin !in s.sessions && name in s.users
              && s.users[name].password != password)
        && (name != "" && password != "" && c.origin !in s.sessions && name !in s.users ==>
              out == Done(false, Say("User does not exist\n")))
        && (name != "" && password != "" && c.origin in s.sessions ==>
              out == Done(false, Say(s.sessions[c.origin].name + " is already logged in\n")))
        && (name == "" || password == "" ==> out == Done(false, Say("Username or password cannot be empty\n")))
      case Logout => out ==
        if c.origin in s.sessions then Done(true, Say("Logout successful\n")) else Done(false, Say("Logout failed\n"))
      case _ => true
  {
  }

  /** The same for group requests: the session is looked at first, then the group, then the place of the user in it. */
  lemma GroupAnswers(s: State, c: Call, pick: Pick)
    requires c.request.CreateGroup? || c.request.JoinGroup? || c.request.LeaveGroup? || c.request.AcceptRequest?
             || c.request.ListRequests?
    ensures var (out, id) := (Step(s, c, pick).1, c.request.groupId);
      if c.origin !in s.sessions then out == Done(false, Say(LOGIN_REQUIRED))
      else
        var u := s.sessions[c.origin];
        match c.request
        case CreateGroup(_) => out ==
          if id in s.groups then Done(false, Say("Group already exists\n")) else Done(true, Say("Group created\n"))
        case JoinGroup(_) => out ==
          if id in s.groups && u != s.groups[id].owner && u !in s.groups[id].users
          then Done(true, Say("Join request sent\n")) else Done(false, Say("Invalid request\n"))
        case LeaveGroup(_) => out ==
          if id in s.groups && u in s.groups[id].users then Done(true, Say("Left group\n"))
          else Done(false, Say("Invalid request\n"))
        case AcceptRequest(_, name) =>
          if id !in s.groups then out == Done(false, Say("Group does not exist\n"))
          else if u != s.groups[id].owner then out == Done(false, Say("You are not the owner of the group\n"))
          else if exists v :: v in s.groups[id].requests && v.name == name
            then out == Done(true, Say("Request accepted\n"))
          else out == Done(false, Say("This user has not sent a request\n"))
        case ListRequests(_) => out ==
          if id in s.groups then Done(false, Pending(s.groups[id].requests))
          else Done(false, Say("Group does not exist\n"))
        case _ => true
  {
    if c.request.AcceptRequest? && c.request.groupId in s.groups {
      RequestersIff(s.groups[c.request.groupId], c.request.username);
    }
  }

  lemma RequestersIff(g: GroupState, name: string)
    ensures Requesters(g, name) != {} <==> exists v :: v in g.requests && v.name == name
  {
    if v :| v in g.requests && v.name == name {
      assert v in Requesters(g, name);
    }
  }

  // ---- Listings ----

  /** The listings of users and groups have every name and no other; nobody need be logged in, and nothing changes. */
  lemma ListingsAreComplete(s: State, c: Call, pick: Pick)
    requires c.request.ListUsers? || c.request.ListGroups?
    ensures var (s', out) := Step(s, c, pick);
      && s' == s && out.Done? && !out.success
      && (c.request.ListUsers? ==> out.reply.Users? && forall n :: n in out.reply.names <==> n in s.users)
      && (c.request.ListGroups? ==> out.reply.Groups? && forall n :: n in out.reply.ids <==> n in s.groups)
  {
  }

  /** The tokens of a listing are the names listed, each once. */
  lemma ListedNames(names: set<string>, none: string, message: string)
    requires forall n :: n in names ==> NoSpace(n)
    requires names != {} && exists order ::
      Enumerates(order, names) && message == if names == {} then none else ListText(order, x => x)
    ensures var words := ReadAll(Open(message));
      && (set w | w in words) == names - {""}
      && forall i, j :: 0 <= i < j < |words| ==> words[i] != words[j]
  {
    hide ReadAll, ListText;
    var order :| Enumerates(order, names) && message == ListText(order, x => x);
    forall i | 0 <= i < |order| ensures NoSpace(order[i]) {
      assert order[i] in set x | x in order;
    }
    ListingReadsBack(order, "");
    assert message + "" == message;
    NothingToRead();
    NonEmptyKeeps(order);
    forall w ensures w in NonEmpty(order) <==> w in names && w != "" {
      assert w in order <==> w in set x | x in order;
    }
  }

  lemma NothingToRead()
    ensures ReadAll(Open("")) == []
  {
  }

  lemma {:induction false} NonEmptyKeeps(words: seq<string>)
    requires forall i, j :: 0 <= i < j < |words| ==> words[i] != words[j]
    ensures forall w :: w in NonEmpty(words) <==> w in words && w != ""
    ensures forall i, j :: 0 <= i < j < |NonEmpty(words)| ==> NonEmpty(words)[i] != NonEmpty(words)[j]
  {
    if words != [] {
      var n := |words| - 1;
      NonEmptyKeeps(words[..n]);
      var before, kept := NonEmpty(words[..n]), NonEmpty(words);
      assert words == words[..n] + [words[n]] && words[n] !in words[..n];
      forall w ensures w in kept <==> w in words && w != "" {
        assert w in words <==> w in words[..n] || w == words[n];
      }
      assert words[n] !in before;
    }
  }

  /** Every user that a run creates has a word as name. */
  lemma {:induction false} CreatedNamesAreWords(run: seq<Event>)
    ensures forall i :: 0 <= i < |Creations(run)| ==> IsWord(Creations(run)[i].name)
  {
    hide Step, After;
    if run != [] {
      var n := |run| - 1;
      CreatedNamesAreWords(run[..n]);
      match DecodeLine(run[n].line)
      case Some(Call(_, CreateUser(name, password))) =>
        ReadWordGivesWords(Arguments(run[n].line));
        CreatedName(After(run[..n]), run[n], name, password);
      case _ =>
    }
  }

  lemma CreatedName(s: State, e: Event, name: string, password: string)
    requires DecodeLine(e.line).Some? && DecodeLine(e.line).value.request == CreateUser(name, password)
    ensures NoSpace(name) && (StepLine(s, e).1.Success() ==> name != "")
  {
    hide ReadWord, ReadUploadArgs;
    ReadWordGivesWords(Arguments(e.line));
  }

  lemma NamesAreWords(run: seq<Event>)
    ensures forall name :: name in After(run).users ==> IsWord(name)
    ensures forall id :: id in After(run).groups ==>
      NoSpace(id) && forall u :: u in After(run).groups[id].requests ==> IsWord(u.name)
  {
    hide After, Creations, IsWord, NoSpace;
    RunKnowsItsUsers(run);
    RunIsSound(run);
    RunIsHeld(run);
    CreatedNamesAreWords(run);
    var s, users := After(run), Creations(run);
    forall id, u | id in s.groups && u in s.groups[id].requests ensures IsWord(u.name) {
      assert KnowsGroup(users, s.groups[id]) && Knows(users, u);
    }
    forall name | name in s.users ensures IsWord(name) {
      assert Knows(users, s.users[name]) && s.users[name].name == name;
    }
  }

  /** In every reachable state: a client that asks for the users reads exactly their names, each once, whatever order
      the hash map has. */
  lemma UsersAreListed(run: seq<Event>, origin: Size, pick: Pick, message: string)
    requires Renders(Step(After(run), Call(origin, ListUsers), pick).1.reply, message)
    ensures var (users, words) := (After(run).users.Keys, ReadAll(Open(message)));
      if users == {} then message == "No users found\n"
      else (set w | w in words) == users && forall i, j :: 0 <= i < j < |words| ==> words[i] != words[j]
  {
    hide After, ReadAll, ListText, Enumerates;
    NamesAreWords(run);
    var users := After(run).users.Keys;
    assert Step(After(run), Call(origin, ListUsers), pick).1.reply == Users(users);
    if users != {} {
      ListedNames(users, "No users found\n", message);
      assert "" !in users;
    }
  }

  /** And likewise for the groups, but that one without an id is an empty line. */
  lemma GroupsAreListed(run: seq<Event>, origin: Size, pick: Pick, message: string)
    requires Renders(Step(After(run), Call(origin, ListGroups), pick).1.reply, message)
    ensures var (ids, words) := (After(run).groups.Keys, ReadAll(Open(message)));
      if ids == {} then message == "No groups found\n"
      else (set w | w in words) == ids - {""} && forall i, j :: 0 <= i < j < |words| ==> words[i] != words[j]
  {
    hide After, ReadAll, ListText, Enumerates;
    NamesAreWords(run);
    var ids := After(run).groups.Keys;
    assert Step(After(run), Call(origin, ListGroups), pick).1.reply == Groups(ids);
    if ids != {} {
      ListedNames(ids, "No groups found\n", message);
    }
  }

  function NamesOf(order: seq<User>): seq<string> {
    seq(|order|, i requires 0 <= i < |order| => order[i].name)
  }

  lemma {:induction false} ListTextOfNames(order: seq<User>)
    ensures ListText(order, (u: User) => u.name) == ListText(NamesOf(order), x => x)
  {
    if order != [] {
      var n := |order| - 1;
      ListTextOfNames(order[..n]);
      assert NamesOf(order)[..n] == NamesOf(order[..n]);
    }
  }

  lemma {:induction false} WordsAreNotEmpty(words: seq<string>)
    requires forall i :: 0 <= i < |words| ==> words[i] != ""
    ensures NonEmpty(words) == words
  {
    if words != [] {
      var n := |words| - 1;
      WordsAreNotEmpty(words[..n]);
      assert words == words[..n] + [words[n]];
    }
  }

  /** Whoever is logged in reads the names of exactly the users that are pending in a group. */
  lemma PendingAreListed(run: seq<Event>, origin: Size, id: string, pick: Pick, message: string)
    requires origin in After(run).sessions && id in After(run).groups
    requires Renders(Step(After(run), Call(origin, ListRequests(id)), pick).1.reply, message)
    ensures var pending := After(run).groups[id].requests;
      if pending == {} then message == "No pending join_requests\n"
      else exists order :: Enumerates(order, pending) && ReadAll(Open(message)) == NamesOf(order)
  {
    hide After, ReadAll, ListText, Enumerates;
    NamesAreWords(run);
    var pending := After(run).groups[id].requests;
    assert Step(After(run), Call(origin, ListRequests(id)), pick).1.reply == Pending(pending);
    if pending != {} {
      var order :| Enumerates(order, pending) && message == ListText(order, (u: User) => u.name);
      EnumeratedAreIn(order, pending);
      ListTextOfNames(order);
      ListingReadsBack(NamesOf(order), "");
      assert message + "" == message;
      NothingToRead();
      WordsAreNotEmpty(NamesOf(order));
      assert NamesOf(order) + [] == NamesOf(order);
    }
  }

  lemma EnumeratedAreIn<T>(order: seq<T>, s: set<T>)
    requires Enumerates(order, s)
    ensures forall i :: 0 <= i < |order| ==> order[i] in s
    ensures forall x :: x in s ==> exists i :: 0 <= i < |order| && order[i] == x
  {
    assert forall i :: 0 <= i < |order| ==> order[i] in set y | y in order;
  }

  /** Some stretch of the text. */
  ghost predicate Has(message: string, part: string) {
    exists i, j :: 0 <= i <= j <= |message| && message[i..j] == part
  }

  lemma HasInFront(a: string, b: string, part: string)
    requires Has(a, part)
    ensures Has(a + b, part)
  {
    var i, j :| 0 <= i <= j <= |a| && a[i..j] == part;
    assert (a + b)[i..j] == part;
  }

  lemma {:induction false} ListTextHas(order: seq<FileInfo>, k: nat)
    requires k < |order|
    ensures Has(ListText(order, FileInfoText), FileInfoText(order[k]))
    decreases |order|
  {
    hide FileInfoText;
    var n := |order| - 1;
    var before, line := ListText(order[..n], FileInfoText), FileInfoText(order[n]);
    assert ListText(order, FileInfoText) == before + (line + "\n");
    if k == n {
      assert (before + (line + "\n"))[|before|..|before| + |line|] == line;
    } else {
      ListTextHas(order[..n], k);
      HasInFront(before, line + "\n", FileInfoText(order[k]));
    }
  }

  /** Whoever is entitled to a group's files finds each file with a name in the listing, with all of its description. */
  lemma FilesAreListed(run: seq<Event>, origin: Size, id: string, hash: string, pick: Pick, message: string)
    requires Entitled(After(run), origin, id) && hash in After(run).groups[id].files
    requires Renders(Step(After(run), Call(origin, ListFiles(id)), pick).1.reply, message)
    ensures var info := After(run).groups[id].files[hash].info;
      info.name != "" ==> exists part :: Has(message, part) && forall unset :: ParseFileInfo(part, unset) == info
  {
    hide After, ListText, Enumerates, FileInfoText, Step, Has, ParseFileInfo;
    var s, c := After(run), Call(origin, ListFiles(id));
    MembersList(s, c, pick);
    RunIsHeld(run);
    var info, infos := s.groups[id].files[hash].info, Step(s, c, pick).1.reply.infos;
    assert info in infos;
    assert HeldFile(s.groups[id].files[hash]);
    var order :| Enumerates(order, infos) && message == ListText(order, FileInfoText);
    EnumeratedAreIn(order, infos);
    var k :| 0 <= k < |order| && order[k] == info;
    ListTextHas(order, k);
    if info.name != "" {
      assert "" + FileInfoText(info) + "" == FileInfoText(info);
      FileInfoRoundTrip("", info, "");
      assert forall unset :: ParseFileInfo(FileInfoText(info), unset) == info;
    }
  }

  /** And reads that there is none exactly if the group has no file. */
  lemma EmptyListing(s: State, origin: Size, id: string, pick: Pick, message: string)
    requires Entitled(s, origin, id) && Renders(Step(s, Call(origin, ListFiles(id)), pick).1.reply, message)
    ensures message == "No files found\n" <==> s.groups[id].files == map[]
  {
    hide Step, ListText, FileInfoText;
    MembersList(s, Call(origin, ListFiles(id)), pick);
    var files, infos := s.groups[id].files, Step(s, Call(origin, ListFiles(id)), pick).1.reply.infos;
    if h :| h in files {
      assert files[h].info in infos;
      var order :| Enumerates(order, infos) && message == ListText(order, FileInfoText);
      EnumeratedAreIn(order, infos);
      ListTextStarts(order);
    } else {
      assert infos == {};
    }
  }

  lemma {:induction false} ListTextStarts(order: seq<FileInfo>)
    requires order != []
    ensures var message := ListText(order, FileInfoText); message != "" && message[0] == 'F'
  {
    var n := |order| - 1;
    var before, line := ListText(order[..n], FileInfoText), FileInfoText(order[n]);
    assert line[0] == 'F';
    assert ListText(order, FileInfoText) == before + line + "\n";
    if n > 0 {
      ListTextStarts(order[..n]);
    }
  }

  // ---- What a downloader makes of the answer ----

  lemma AbsenceIsRead(unset: Unset)
    ensures ParseReply("0 File not found\n", unset) == Absent
  {
    var tail := " File not found\n";
    assert Decimal(0) == "0";
    assert "0 File not found\n" == "" + Decimal(0) + tail;
    ReadNumberBack("", 0, tail);
  }

  lemma RefusalsAreNoNumbers()
    ensures var login := LOGIN_REQUIRED; login != "" && login[0] == 'Y'
    ensures var group := "Group not found\n"; group != "" && group[0] == 'G'
    ensures var member := "You are not a member of this group\n"; member != "" && member[0] == 'Y'
  {
  }

  lemma RefusalsAreUnreadable(text: string, unset: Unset)
    requires text != "" && (text[0] == 'Y' || text[0] == 'G')
    ensures ParseReply(text, unset) == Unreadable
  {
    NoNumber(text, unset);
  }

  lemma NoNumber(text: string, unset: Unset)
    requires text != "" && !IsSpace(text[0]) && !IsDigit(text[0]) && text[0] !in "+-"
    ensures ParseReply(text, unset) == Unreadable
  {
    assert SkipSpaces(text) == text;
    assert Digits(text) == "";
  }

  /** A downloader is offered nothing unless it is entitled and the group has a file of that name; if it is entitled, it
      reads that the file is absent, and otherwise nothing. */
  lemma DownloadAnswersAreRead(s: State, c: Call, pick: Pick, message: string, unset: Unset)
    requires c.request.Download? && Renders(Step(s, c, pick).1.reply, message)
    ensures !Entitled(s, c.origin, c.request.groupId) ==> ParseReply(message, unset) == Unreadable
    ensures Entitled(s, c.origin, c.request.groupId) && !Step(s, c, pick).1.reply.Found? ==>
      ParseReply(message, unset) == Absent
  {
    hide Step, Entitled, ParseReply;
    AbsenceIsRead(unset);
    RefusalsAreNoNumbers();
    if Entitled(s, c.origin, c.request.groupId) {
      MembersDownload(s, c, pick);
    } else {
      StrangersGetNothing(s, c, pick);
      RefusalsAreUnreadable(message, unset);
    }
  }
}
