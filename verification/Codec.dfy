/** The printers and parsers of endpoint.hpp, fileinfo.hpp and file.hpp. */
module Codec {
  import opened Streams

  /** A parse either gives a value or throws one of two standard exceptions. */
  datatype Parsed<+T> = Parsed(value: T) | InvalidArgument | OutOfRange

  // ---- Endpoints ----

  /** A `uint16_t`. */
  type Port = n: nat | n < 0x1_0000

  datatype Endpoint = Endpoint(ip: string, port: Port)

  function EndpointText(e: Endpoint): string {
    e.ip + ":" + Decimal(e.port)
  }

  /** `std::string::find` of one character. */
  function Find(s: string, c: char): (r: Option<nat>)
    ensures r.Some? ==> r.value < |s| && s[r.value] == c
  {
    if s == "" then None
    else if s[0] == c then Some(0)
    else
      match Find(s[1..], c)
      case None => None
      case Some(i) => Some(i + 1)
  }

  lemma {:induction false} FindInConcat(a: string, c: char, b: string)
    requires c !in a
    ensures Find(a + [c] + b, c) == Some(|a|)
  {
    if a == "" {
      assert (a + [c] + b)[0] == c;
    } else {
      assert (a + [c] + b)[1..] == a[1..] + [c] + b;
      FindInConcat(a[1..], c, b);
    }
  }

  /** `std::stoi` in base ten. */
  function Stoi(s: string): Parsed<int> {
    match ReadNumber(Open(s)).0
    case None => InvalidArgument
    case Some(number) =>
      var v := number.Value();
      if -0x8000_0000 <= v <= 0x7fff_ffff then Parsed(v) else OutOfRange
  }

  function ParseEndpoint(s: string): Parsed<Endpoint> {
    match Find(s, ':')
    case None => InvalidArgument
    case Some(colon) =>
      match Stoi(s[colon + 1..])
      case Parsed(v) => Parsed(Endpoint(s[..colon], v % 0x1_0000))
      case InvalidArgument => InvalidArgument
      case OutOfRange => OutOfRange
  }

  /** An ip that can be cut out of a token again. */
  predicate PlainEndpoint(e: Endpoint) {
    NoSpace(e.ip) && ':' !in e.ip
  }

  lemma EndpointTextIsWord(e: Endpoint)
    requires PlainEndpoint(e)
    ensures IsWord(EndpointText(e))
  {
    var t := EndpointText(e);
    forall i | 0 <= i < |t| ensures !IsSpace(t[i]) {
      if i > |e.ip| {
        assert t[i] == Decimal(e.port)[i - |e.ip| - 1];
      }
    }
  }

  lemma EndpointRoundTrip(e: Endpoint)
    requires PlainEndpoint(e)
    ensures ParseEndpoint(EndpointText(e)) == Parsed(e)
  {
    var t := EndpointText(e);
    var colon := |e.ip|;
    FindInConcat(e.ip, ':', Decimal(e.port));
    assert t[..colon] == e.ip;
    assert t[colon + 1..] == "" + Decimal(e.port) + "";
    ReadNumberBack("", e.port, "");
  }

  lemma {:induction false} NotFound(s: string, c: char)
    requires c !in s
    ensures Find(s, c) == None
  {
    if s != "" {
      NotFound(s[1..], c);
    }
  }

  /** Texts that are no endpoints: without a colon, or without a number behind it, they are invalid; with a number
      that no `int` holds they are out of range; and any other number is cut to sixteen bits. */
  lemma EndpointErrors(ip: string, n: nat, word: string)
    requires ':' !in ip
    ensures ParseEndpoint(ip) == InvalidArgument
    ensures ParseEndpoint(ip + ":" + Decimal(n)) ==
      if n > 0x7fff_ffff then OutOfRange else Parsed(Endpoint(ip, n % 0x1_0000))
    ensures word == "" || (!IsSpace(word[0]) && !IsDigit(word[0]) && word[0] !in "+-") ==>
      ParseEndpoint(ip + ":" + word) == InvalidArgument
  {
    hide Find, ReadNumber;
    NotFound(ip, ':');
    ColonIsFound(ip, Decimal(n));
    assert "" + Decimal(n) + "" == Decimal(n);
    ReadNumberBack("", n, "");
    ColonIsFound(ip, word);
    if word == "" || (!IsSpace(word[0]) && !IsDigit(word[0]) && word[0] !in "+-") {
      NoNumberThere(word);
    }
  }

  lemma ColonIsFound(ip: string, rest: string)
    requires ':' !in ip
    ensures var s := ip + ":" + rest; Find(s, ':') == Some(|ip|) && s[..|ip|] == ip && s[|ip| + 1..] == rest
  {
    FindInConcat(ip, ':', rest);
    assert ip + [':'] + rest == ip + ":" + rest;
  }

  lemma NoNumberThere(word: string)
    requires word == "" || (!IsSpace(word[0]) && !IsDigit(word[0]) && word[0] !in "+-")
    ensures ReadNumber(Open(word)).0 == None
  {
    assert SkipSpaces(word) == word;
    assert Digits(word) == "";
  }

  // ---- File descriptions ----

  datatype FileInfo = FileInfo(name: string, size: Size, pieces: seq<string>, hash: string)

  function Concat(pieces: seq<string>): string {
    if pieces == [] then "" else pieces[0] + Concat(pieces[1..])
  }

  /** The pieces as they are listed: each followed by one space. */
  function Listed(pieces: seq<string>): string {
    if pieces == [] then "" else pieces[0] + " " + Listed(pieces[1..])
  }

  function FileInfoText(info: FileInfo): string {
    "File: " + info.name + "\t" + "Size: " + Decimal(info.size) + " bytes\t" + "Pieces: "
    + Listed(info.pieces) + "\n"
  }

  /** Every word up to the end of the stream. */
  function ReadAll(s: Stream): seq<string>
    decreases |s.rest|
  {
    var (w, s') := ReadWord(s);
    if s'.fail then [] else [w] + ReadAll(s')
  }

  /** The size is declared without a value: `unset` is what it happens to hold, and keeps if the text ends first. */
  function ParseFileInfo(text: string, unset: Size): FileInfo {
    var (name, s2) := ReadWord(ReadWord(Open(text)).1);
    InfoAfterName(name, s2, unset)
  }

  function InfoAfterName(name: string, s2: Stream, unset: Size): FileInfo {
    var (size, s4) := ReadSizeOr(ReadWord(s2).1, unset);
    var pieces := PiecesAfterSize(s4);
    FileInfo(name, size, pieces, Concat(pieces))
  }

  function PiecesAfterSize(s4: Stream): seq<string> {
    ReadAll(ReadWord(ReadWord(s4).1).1)
  }

  /** The text does not end before the size. */
  predicate HasSize(text: string) {
    Reaches(ReadWord(ReadWord(ReadWord(Open(text)).1).1).1)
  }

  /** A description with the size that it gets if it has none of its own. */
  function Filled(info: FileInfo, sized: bool, unset: Size): FileInfo {
    if sized then info else info.(size := unset)
  }

  lemma ParseIsFilled(text: string, default: Size, unset: Size)
    ensures ParseFileInfo(text, unset) == Filled(ParseFileInfo(text, default), HasSize(text), unset)
  {
    hide ReadWord, ReadSize;
  }

  /** A description whose tokens survive printing, with the hash that get_file_info gives it. */
  predicate PlainInfo(info: FileInfo) {
    && IsWord(info.name)
    && (forall i :: 0 <= i < |info.pieces| ==> IsWord(info.pieces[i]))
    && info.hash == Concat(info.pieces)
  }

  lemma {:induction false} ConcatSnoc(pieces: seq<string>, w: string)
    ensures Concat(pieces + [w]) == Concat(pieces) + w
  {
    if pieces == [] {
      assert Concat([w]) == w + Concat([]);
    } else {
      assert (pieces + [w])[1..] == pieces[1..] + [w];
      ConcatSnoc(pieces[1..], w);
    }
  }

  lemma {:induction false} ListedSnoc(pieces: seq<string>, w: string)
    ensures Listed(pieces + [w]) == Listed(pieces) + w + " "
  {
    if pieces == [] {
      assert (pieces + [w])[1..] == [];
    } else {
      assert (pieces + [w])[1..] == pieces[1..] + [w];
      ListedSnoc(pieces[1..], w);
      assert pieces[0] + " " + (Listed(pieces[1..]) + w + " ") == pieces[0] + " " + Listed(pieces[1..]) + w + " ";
    }
  }

  lemma {:induction false} ReadAllBack(pre: string, pieces: seq<string>, post: string)
    requires Blank(pre) && Blank(post)
    requires forall i :: 0 <= i < |pieces| ==> IsWord(pieces[i])
    ensures ReadAll(Open(pre + Listed(pieces) + post)) == pieces
    decreases |pieces|
  {
    if pieces == [] {
      assert pre + Listed(pieces) + post == (pre + post) + "";
      SkipSpacesPrefix(pre + post, "");
    } else {
      var tail := " " + Listed(pieces[1..]) + post;
      assert pre + Listed(pieces) + post == pre + pieces[0] + tail;
      ReadWordBack(pre, pieces[0], tail);
      ReadAllBack(" ", pieces[1..], post);
    }
  }

  /** What is still unread after each of the six tokens before the pieces. */
  function InfoTail5(info: FileInfo, post: string): string {
    " " + Listed(info.pieces) + ("\n" + post)
  }

  function InfoTail3(info: FileInfo, post: string): string {
    " " + "bytes" + ("\t" + "Pieces:" + InfoTail5(info, post))
  }

  function InfoTail1(info: FileInfo, post: string): string {
    "\t" + "Size:" + (" " + Decimal(info.size) + InfoTail3(info, post))
  }

  lemma PiecesAfterSizeBack(info: FileInfo, post: string)
    requires Blank(post) && PlainInfo(info)
    ensures PiecesAfterSize(Open(InfoTail3(info, post))) == info.pieces
  {
    var t5 := InfoTail5(info, post);
    ReadWordBack(" ", "bytes", "\t" + "Pieces:" + t5);
    ReadWordBack("\t", "Pieces:", t5);
    ReadAllBack(" ", info.pieces, "\n" + post);
  }

  lemma InfoAfterNameBack(info: FileInfo, post: string)
    requires Blank(post) && PlainInfo(info)
    ensures forall unset :: InfoAfterName(info.name, Open(InfoTail1(info, post)), unset) == info
    ensures Reaches(ReadWord(Open(InfoTail1(info, post))).1)
  {
    var t3 := InfoTail3(info, post);
    ReadWordBack("\t", "Size:", " " + Decimal(info.size) + t3);
    ReadNumberBack(" ", info.size, t3);
    PiecesAfterSizeBack(info, post);
  }

  lemma InfoTextAsTokens(pre: string, info: FileInfo, post: string)
    ensures pre + FileInfoText(info) + post == pre + "File:" + (" " + info.name + InfoTail1(info, post))
  {
    assert "File: " == "File:" + " " && "Size: " == "Size:" + " " && "Pieces: " == "Pieces:" + " ";
    assert " bytes\t" == " " + "bytes" + "\t";
    RegroupInfo(pre, "File:", " ", info.name, "\t", "Size:", Decimal(info.size), "bytes", "Pieces:",
                Listed(info.pieces), "\n", post);
  }

  lemma RegroupInfo(pre: string, a: string, gap: string, name: string, tab: string, b: string, size: string,
                    c: string, d: string, list: string, end: string, post: string)
    ensures pre + (a + gap + name + tab + (b + gap) + size + (gap + c + tab) + (d + gap) + list + end) + post
         == pre + a + (gap + name + (tab + b + (gap + size + (gap + c + (tab + d + (gap + list + (end + post)))))))
  {
  }

  /** Whatever white space surrounds it, a printed description parses back to itself. */
  lemma FileInfoRoundTrip(pre: string, info: FileInfo, post: string)
    requires Blank(pre) && Blank(post) && PlainInfo(info)
    ensures forall unset :: ParseFileInfo(pre + FileInfoText(info) + post, unset) == info
    ensures HasSize(pre + FileInfoText(info) + post)
  {
    var t1 := InfoTail1(info, post);
    InfoTextAsTokens(pre, info, post);
    ReadWordBack(pre, "File:", " " + info.name + t1);
    ReadWordBack(" ", info.name, t1);
    InfoAfterNameBack(info, post);
  }

  method FileInfoToString(info: FileInfo) returns (str: string)
    ensures str == FileInfoText(info)
  {
    str := "File: " + info.name + "\t";
    str := str + "Size: " + Decimal(info.size) + " bytes\t";
    str := str + "Pieces: ";
    ghost var head := str;
    for i := 0 to |info.pieces|
      invariant str == head + Listed(info.pieces[..i])
    {
      str := str + info.pieces[i] + " ";
      assert info.pieces[..i + 1] == info.pieces[..i] + [info.pieces[i]];
      ListedSnoc(info.pieces[..i], info.pieces[i]);
    }
    assert info.pieces[..|info.pieces|] == info.pieces;
    str := str + "\n";
  }

  /** The last loop of the parser: words up to the end, kept and concatenated. */
  method PiecesFromStream(ss: StringStream) returns (pieces: seq<string>, hash: string)
    modifies ss
    ensures pieces == ReadAll(old(ss.state)) && hash == Concat(pieces)
  {
    hide ReadWord, ReadAll, Concat;
    pieces, hash := [], "";
    NothingRead(ss.state);
    while true
      invariant ReadAll(old(ss.state)) == pieces + ReadAll(ss.state)
      invariant hash == Concat(pieces)
      decreases |ss.state.rest|
    {
      ReadAllStep(ss.state);
      var piece := ss.NextWord();
      if ss.state.fail {
        assert pieces + [] == pieces;
        break;
      }
      ConcatSnoc(pieces, piece);
      AppendFirst(pieces, piece, ReadAll(ss.state));
      pieces := pieces + [piece];
      hash := hash + piece;
    }
  }

  lemma NothingRead(s: Stream)
    ensures [] + ReadAll(s) == ReadAll(s) && Concat([]) == ""
  {
  }

  lemma ReadAllStep(s: Stream)
    ensures var (w, s') := ReadWord(s);
      ReadAll(s) == (if s'.fail then [] else [w] + ReadAll(s')) && (s'.fail || |s'.rest| < |s.rest|)
  {
  }

  lemma AppendFirst(a: seq<string>, w: string, b: seq<string>)
    ensures a + ([w] + b) == (a + [w]) + b
  {
  }

  method FileInfoFromString(text: string) returns (info: FileInfo, ghost unset: Size)
    ensures info == ParseFileInfo(text, unset)
    ensures info == ParseFileInfo(text, info.size)
  {
    var ss := new StringStream(text);
    var temp := ss.NextWord();
    var name := ss.NextWord();
    temp := ss.NextWord();
    var size: Size := *;
    unset := size;
    size := ss.NextSize(size);
    temp := ss.NextWord();
    temp := ss.NextWord();
    var pieces, hash := PiecesFromStream(ss);
    info := FileInfo(name, size, pieces, hash);
  }

  // ---- Files with their seeders ----

  /** A File as it travels: its seeders are a set of fresh objects, so endpoints may repeat. */
  datatype SharedFile = SharedFile(seeders: multiset<Endpoint>, info: FileInfo, groupId: string)

  function SeedersText(seeders: seq<Endpoint>): string {
    if seeders == [] then "" else EndpointText(seeders[0]) + " " + SeedersText(seeders[1..])
  }

  /** The text of a file when the seeders come out of the hash set in the given order. */
  function FileText(order: seq<Endpoint>, groupId: string, info: FileInfo): string {
    Decimal(|order|) + " " + SeedersText(order) + groupId + " " + FileInfoText(info)
  }

  /** Seeders put in front of what the remaining reads give. */
  function PrependSeeders(es: multiset<Endpoint>, r: Parsed<(multiset<Endpoint>, Stream)>)
    : Parsed<(multiset<Endpoint>, Stream)>
  {
    match r
    case Parsed((more, s)) => Parsed((es + more, s))
    case InvalidArgument => InvalidArgument
    case OutOfRange => OutOfRange
  }

  lemma PrependTwice(a: multiset<Endpoint>, b: multiset<Endpoint>, r: Parsed<(multiset<Endpoint>, Stream)>)
    ensures PrependSeeders(a, PrependSeeders(b, r)) == PrependSeeders(a + b, r)
    ensures PrependSeeders(multiset{}, r) == r
  {
    if r.Parsed? {
      var es := r.value.0;
      assert a + (b + es) == (a + b) + es;
      assert multiset{} + es == es;
    }
  }

  function ParseSeeders(s: Stream, count: nat): Parsed<(multiset<Endpoint>, Stream)>
    decreases count
  {
    if count == 0 then Parsed((multiset{}, s))
    else
      var (word, s') := ReadWord(s);
      match ParseEndpoint(word)
      case InvalidArgument => InvalidArgument
      case OutOfRange => OutOfRange
      case Parsed(e) => PrependSeeders(multiset{e}, ParseSeeders(s', count - 1))
  }

  lemma SeedersDone(es: multiset<Endpoint>, s: Stream)
    ensures PrependSeeders(es, ParseSeeders(s, 0)) == Parsed((es, s))
  {
    assert es + multiset{} == es;
  }

  lemma ParseSeedersStep(s: Stream, count: nat)
    requires count > 0
    ensures var (word, s') := ReadWord(s);
      match ParseEndpoint(word)
      case Parsed(e) => ParseSeeders(s, count) == PrependSeeders(multiset{e}, ParseSeeders(s', count - 1))
      case InvalidArgument => ParseSeeders(s, count) == InvalidArgument
      case OutOfRange => ParseSeeders(s, count) == OutOfRange
  {
  }

  /** `ss.str().substr(ss.tellg())`: the unread text, or a throw once a read has met the end. */
  function Remainder(s: Stream): Parsed<string> {
    if s.Good() then Parsed(s.rest) else OutOfRange
  }

  /** What the two variables that the parser of files declares without a value happen to hold. */
  datatype Unset = Unset(count: Size, size: Size)

  function ParseFile(text: string, unset: Unset): Parsed<SharedFile> {
    var (count, s1) := ReadSizeOr(Open(text), unset.count);
    match ParseSeeders(s1, count)
    case InvalidArgument => InvalidArgument
    case OutOfRange => OutOfRange
    case Parsed((seeders, s2)) =>
      var (groupId, s3) := ReadWord(s2);
      match Remainder(s3)
      case Parsed(rest) => Parsed(SharedFile(seeders, ParseFileInfo(rest, unset.size), groupId))
      case _ => OutOfRange
  }

  lemma {:induction false} SeedersRoundTrip(pre: string, order: seq<Endpoint>, tail: string)
    requires Blank(pre)
    requires forall i :: 0 <= i < |order| ==> PlainEndpoint(order[i])
    ensures ParseSeeders(Open(pre + SeedersText(order) + tail), |order|)
         == Parsed((multiset(order), Open((if order == [] then pre else " ") + tail)))
    decreases |order|
  {
    hide ReadWord, ParseEndpoint, EndpointText;
    if order == [] {
      assert pre + SeedersText(order) + tail == pre + tail;
    } else {
      var e, rest := order[0], SeedersText(order[1..]);
      assert pre + SeedersText(order) + tail == pre + EndpointText(e) + (" " + rest + tail);
      EndpointTextIsWord(e);
      ReadWordBack(pre, EndpointText(e), " " + rest + tail);
      EndpointRoundTrip(e);
      ParseSeedersStep(Open(pre + SeedersText(order) + tail), |order|);
      SeedersRoundTrip(" ", order[1..], tail);
      assert order == [e] + order[1..];
    }
  }

  lemma Regroup(pre: string, count: string, gap: string, list: string, id: string, text: string, post: string)
    ensures pre + (count + gap + list + id + gap + text) + post
         == pre + count + (gap + list + (id + (gap + text + post)))
  {
  }

  /** A printed file parses back, whatever the order of its seeders and the white space around it. */
  lemma FileRoundTrip(pre: string, order: seq<Endpoint>, groupId: string, info: FileInfo, post: string)
    requires Blank(pre) && Blank(post)
    requires forall i :: 0 <= i < |order| ==> PlainEndpoint(order[i])
    requires |order| < SIZE_LIMIT && IsWord(groupId) && PlainInfo(info)
    ensures forall unset :: ParseFile(pre + FileText(order, groupId, info) + post, unset)
                         == Parsed(SharedFile(multiset(order), info, groupId))
  {
    hide ReadWord, ReadNumber, ParseSeeders, ParseFileInfo, FileInfoText, SeedersText, Decimal;
    hide PlainInfo, PlainEndpoint;
    var r3 := " " + FileInfoText(info) + post;
    var r2 := groupId + r3;
    var r1 := " " + SeedersText(order) + r2;
    Regroup(pre, Decimal(|order|), " ", SeedersText(order), groupId, FileInfoText(info), post);
    ReadNumberBack(pre, |order|, r1);
    SeedersRoundTrip(" ", order, r2);
    assert " " + r2 == " " + groupId + r3;
    ReadWordBack(" ", groupId, r3);
    FileInfoRoundTrip(" ", info, post);
  }

  /** Takes the seeders out of the set one by one, in the unspecified order of the hash set. */
  method FileToString(file: SharedFile) returns (str: string)
    ensures exists order :: multiset(order) == file.seeders && str == FileText(order, file.groupId, file.info)
  {
    hide Decimal, EndpointText, FileInfoText, SeedersText;
    var left := file.seeders;
    str := Decimal(|file.seeders|) + " ";
    NoSeedersYet(str);
    ghost var head := str;
    ghost var order: seq<Endpoint> := [];
    while left != multiset{}
      invariant multiset(order) + left == file.seeders
      invariant str == head + SeedersText(order)
      decreases |left|
    {
      var seeder :| seeder in left;
      left := left - multiset{seeder};
      str := str + EndpointText(seeder) + " ";
      SeedersSnoc(order, seeder);
      RegroupSeeder(head, SeedersText(order), EndpointText(seeder), " ");
      order := order + [seeder];
    }
    assert |multiset(order)| == |order|;
    str := str + file.groupId + " ";
    var infoText := FileInfoToString(file.info);
    str := str + infoText;
    assert str == FileText(order, file.groupId, file.info);
  }

  lemma NoSeedersYet(head: string)
    ensures head == head + SeedersText([])
  {
  }

  lemma RegroupSeeder(head: string, list: string, e: string, gap: string)
    ensures head + list + e + gap == head + (list + e + gap)
  {
  }

  lemma {:induction false} SeedersSnoc(order: seq<Endpoint>, e: Endpoint)
    ensures SeedersText(order + [e]) == SeedersText(order) + EndpointText(e) + " "
  {
    if order == [] {
      assert (order + [e])[1..] == [];
    } else {
      assert (order + [e])[1..] == order[1..] + [e];
      SeedersSnoc(order[1..], e);
      var a, b := EndpointText(order[0]) + " ", SeedersText(order[1..]);
      assert a + (b + EndpointText(e) + " ") == a + b + EndpointText(e) + " ";
    }
  }

  /** The seeder loop of the parser; a bad endpoint throws out of it. */
  method SeedersFromStream(ss: StringStream, count: nat) returns (seeders: Parsed<multiset<Endpoint>>)
    modifies ss
    ensures match ParseSeeders(old(ss.state), count)
      case Parsed((es, rest)) => seeders == Parsed(es) && ss.state == rest
      case InvalidArgument => seeders == InvalidArgument
      case OutOfRange => seeders == OutOfRange
  {
    hide ReadWord, ParseEndpoint, ParseSeeders;
    var es: multiset<Endpoint> := multiset{};
    PrependTwice(multiset{}, multiset{}, ParseSeeders(ss.state, count));
    for i := 0 to count
      invariant ParseSeeders(old(ss.state), count) == PrependSeeders(es, ParseSeeders(ss.state, count - i))
    {
      ghost var before := ss.state;
      var word := ss.NextWord();
      var e := ParseEndpoint(word);
      ParseSeedersStep(before, count - i);
      if !e.Parsed? {
        return if e.OutOfRange? then OutOfRange else InvalidArgument;
      }
      PrependTwice(es, multiset{e.value}, ParseSeeders(ss.state, count - i - 1));
      es := es + multiset{e.value};
    }
    SeedersDone(es, ss.state);
    seeders := Parsed(es);
  }

  method FileFromString(text: string) returns (file: Parsed<SharedFile>, ghost unset: Unset)
    ensures file == ParseFile(text, unset)
  {
    hide ReadWord, ReadSize, ParseSeeders, ParseFileInfo;
    var ss := new StringStream(text);
    var count: Size := *;
    unset := Unset(count, 0);
    count := ss.NextSize(count);
    var seeders := SeedersFromStream(ss, count);
    if !seeders.Parsed? {
      return if seeders.OutOfRange? then OutOfRange else InvalidArgument, unset;
    }
    var groupId := ss.NextWord();
    match Remainder(ss.state) {
      case Parsed(rest) =>
        var info;
        ghost var size;
        info, size := FileInfoFromString(rest);
        unset := unset.(size := size);
        file := Parsed(SharedFile(seeders.value, info, groupId));
      case _ => file := OutOfRange;
    }
  }
}
