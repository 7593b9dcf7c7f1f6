/** The download worker on values: what one visit to a queued file does, and what holds over whole runs. */
module Downloads {
  import opened Streams
  import opened Codec
  import opened Hashing
  import opened Pieces

  // ---- Part files ----

  /** A queued file: the pieces are kept as sets of hashes. */
  datatype Entry = Entry(groupId: string, info: FileInfo, path: string, downloaded: set<string>, remaining: set<string>)

  function PieceSet(info: FileInfo): set<string> {
    set p | p in info.pieces
  }

  function NewEntry(groupId: string, info: FileInfo, path: string, allDownloaded: bool): Entry {
    if allDownloaded then Entry(groupId, info, path, PieceSet(info), {})
    else Entry(groupId, info, path, {}, PieceSet(info))
  }

  predicate Complete(e: Entry) {
    e.remaining == {}
  }

  predicate Partitioned(e: Entry) {
    e.downloaded !! e.remaining && e.downloaded + e.remaining == PieceSet(e.info)
  }

  function Mark(e: Entry, piece: string): Entry {
    if piece in e.downloaded then e
    else e.(downloaded := e.downloaded + {piece}, remaining := e.remaining - {piece})
  }

  // ---- Asking peers ----

  /** What comes of contacting a peer: no connection, a reply, or an error that nobody catches. With a reply comes what
      the unset variable for its status holds. */
  datatype Answer = Refused | Replied(text: string, unset: int) | Broken

  datatype Verdict = Nobody | Got(data: string) | Threw

  function Judge(digest: string -> Digest, piece: string, a: Answer): Verdict {
    match a
    case Refused => Nobody
    case Broken => Threw
    case Replied(text, unset) =>
      if ReadIntOr(Open(text), unset) != 1 then Nobody
      else if |text| < 2 then Threw
      else if IsPieceValid(digest, piece, text[2..]) then Got(text[2..])
      else Nobody
  }

  /** The peers are tried in turn until one delivers a valid piece. */
  function FirstGood(digest: string -> Digest, piece: string, answers: seq<Answer>): (v: Verdict)
    ensures v.Got? ==> IsPieceValid(digest, piece, v.data)
  {
    if answers == [] then Nobody
    else
      var v := Judge(digest, piece, answers[0]);
      if v == Nobody then FirstGood(digest, piece, answers[1..]) else v
  }

  // ---- What the answers amount to ----

  /** A reply with status 1 and data of the piece's hash. */
  predicate Good(digest: string -> Digest, piece: string, a: Answer) {
    && a.Replied? && ReadIntOr(Open(a.text), a.unset) == 1 && |a.text| >= 2
    && Sha1(digest, a.text[2..]) == piece
  }

  /** An error that nobody catches, or status 1 with not even a character behind it. */
  predicate Fatal(a: Answer) {
    a.Broken? || (a.Replied? && ReadIntOr(Open(a.text), a.unset) == 1 && |a.text| < 2)
  }

  /** No connection, another status, or data of another hash. */
  predicate Useless(digest: string -> Digest, piece: string, a: Answer) {
    || a.Refused?
    || (a.Replied? && ReadIntOr(Open(a.text), a.unset) != 1)
    || (a.Replied? && |a.text| >= 2 && Sha1(digest, a.text[2..]) != piece)
  }

  /** Some answer is good, and none before it is fatal. */
  ghost predicate Delivers(digest: string -> Digest, piece: string, answers: seq<Answer>) {
    exists k :: 0 <= k < |answers| && Good(digest, piece, answers[k]) && forall i :: 0 <= i < k ==> !Fatal(answers[i])
  }

  /** Some answer is fatal, and none before it is good. */
  ghost predicate Fails(digest: string -> Digest, piece: string, answers: seq<Answer>) {
    exists k :: 0 <= k < |answers| && Fatal(answers[k]) && forall i :: 0 <= i < k ==> !Good(digest, piece, answers[i])
  }

  /** The answer at `k` is good, and those before it are useless. */
  ghost predicate FirstUseful(digest: string -> Digest, piece: string, answers: seq<Answer>, k: nat) {
    && k < |answers| && Good(digest, piece, answers[k])
    && forall i :: 0 <= i < k ==> Useless(digest, piece, answers[i])
  }

  lemma JudgeIs(digest: string -> Digest, piece: string, a: Answer)
    ensures Judge(digest, piece, a) ==
      if Fatal(a) then Threw else if Good(digest, piece, a) then Got(a.text[2..]) else Nobody
    ensures Useless(digest, piece, a) <==> !Fatal(a) && !Good(digest, piece, a)
  {
    hide ReadIntOr, Sha1;
  }

  /** What the status variable held matters for a blank reply only; a short one is fatal exactly if that was 1. */
  lemma OnlyBlankRepliesVary(digest: string -> Digest, piece: string, text: string, unset: int)
    ensures !Blank(text) ==>
      && (Good(digest, piece, Replied(text, unset)) <==> Good(digest, piece, Replied(text, 0)))
      && (Fatal(Replied(text, unset)) <==> Fatal(Replied(text, 0)))
    ensures Blank(text) && |text| < 2 ==>
      !Good(digest, piece, Replied(text, unset)) && (Fatal(Replied(text, unset)) <==> unset == 1)
  {
    hide ReadInt, Sha1, SkipSpaces, Blank;
    SkipSpacesIsBlank(text);
  }

  /** The first answer that is not useless decides. */
  lemma {:induction false} FirstDecides(digest: string -> Digest, piece: string, answers: seq<Answer>, k: nat)
    requires k <= |answers| && forall i :: 0 <= i < k ==> Useless(digest, piece, answers[i])
    ensures k == |answers| ==> FirstGood(digest, piece, answers) == Nobody
    ensures k < |answers| && Fatal(answers[k]) ==> FirstGood(digest, piece, answers) == Threw
    ensures k < |answers| && Good(digest, piece, answers[k]) ==>
      FirstGood(digest, piece, answers) == Got(answers[k].text[2..])
  {
    hide Judge, Good, Fatal, Useless;
    if answers != [] {
      JudgeIs(digest, piece, answers[0]);
      NotBoth(digest, piece, answers[0]);
      if k > 0 {
        FirstDecides(digest, piece, answers[1..], k - 1);
      }
    }
  }

  lemma {:induction false} FirstDecision(digest: string -> Digest, piece: string, answers: seq<Answer>)
    returns (k: nat)
    ensures k <= |answers| && forall i :: 0 <= i < k ==> Useless(digest, piece, answers[i])
    ensures k < |answers| ==> Fatal(answers[k]) != Good(digest, piece, answers[k])
  {
    hide Judge, Useless, Good, Fatal;
    k := 0;
    while k < |answers| && Useless(digest, piece, answers[k])
      invariant k <= |answers| && forall i :: 0 <= i < k ==> Useless(digest, piece, answers[i])
    {
      k := k + 1;
    }
    if k < |answers| {
      JudgeIs(digest, piece, answers[k]);
      NotBoth(digest, piece, answers[k]);
    }
  }

  lemma NotBoth(digest: string -> Digest, piece: string, a: Answer)
    ensures !(Fatal(a) && Good(digest, piece, a))
  {
  }

  lemma FirstGoodIff(digest: string -> Digest, piece: string, answers: seq<Answer>)
    ensures FirstGood(digest, piece, answers).Got? <==> Delivers(digest, piece, answers)
    ensures FirstGood(digest, piece, answers).Threw? <==> Fails(digest, piece, answers)
  {
    hide Judge, FirstGood, Good, Fatal, Useless;
    var n := FirstDecision(digest, piece, answers);
    FirstDecides(digest, piece, answers, n);
    forall i | 0 <= i < n ensures !Fatal(answers[i]) && !Good(digest, piece, answers[i]) {
      JudgeIs(digest, piece, answers[i]);
    }
  }

  // ---- The worker ----

  /** One visit: which remaining piece the hash set yields, and how the peers answer. */
  datatype Visit = Visit(piece: string, answers: seq<Answer>)

  ghost function Wanted(remaining: set<string>, pick: string): (p: string)
    requires remaining != {}
    ensures p in remaining
  {
    if pick in remaining then pick else (var p :| p in remaining; p)
  }

  /** `finished` lists the entries for which the callback fired, `writes` what was written for which entry. */
  datatype World = World(
    entries: seq<Entry>,
    disk: map<string, string>,
    finished: seq<nat>,
    writes: seq<(nat, string)>,
    crashed: bool)

  function FileAt(disk: map<string, string>, path: string): string {
    if path in disk then disk[path] else ""
  }

  /** Where the piece goes; the index is not found only for a piece that is not of the file. */
  function PieceIndex(info: FileInfo, piece: string): nat {
    if piece in info.pieces then FirstIndex(info.pieces, piece) else NOT_FOUND
  }

  /** The disk after writing block `index` of the file at a path. */
  function PutBlock(disk: map<string, string>, path: string, index: nat, bs: BlockSize, data: string)
    : map<string, string>
  {
    disk[path := WriteAt(FileAt(disk, path), index * bs, data)]
  }

  function Store(w: World, j: nat, piece: string, data: string, bs: BlockSize): World
    requires j < |w.entries|
  {
    var e := w.entries[j];
    var e' := Mark(e, piece);
    w.(entries := w.entries[j := e'],
       disk := PutBlock(w.disk, e.path, PieceIndex(e.info, piece), bs, data),
       finished := w.finished + if Complete(e') then [j] else [],
       writes := w.writes + [(j, piece)])
  }

  /** The body of the worker's loop for entry `j`. */
  ghost function Turn(digest: string -> Digest, bs: BlockSize, w: World, j: nat, v: Visit): World
    requires j < |w.entries|
  {
    var e := w.entries[j];
    if w.crashed || Complete(e) then w
    else
      var piece := Wanted(e.remaining, v.piece);
      match FirstGood(digest, piece, v.answers)
      case Nobody => w
      case Threw => w.(crashed := true)
      case Got(data) => Store(w, j, piece, data, bs)
  }

  /** When a visit kills the worker, what it stores otherwise, and when it leaves everything as it is. */
  lemma TurnIs(digest: string -> Digest, bs: BlockSize, w: World, j: nat, v: Visit)
    requires j < |w.entries| && !w.crashed && !Complete(w.entries[j])
    ensures var piece := Wanted(w.entries[j].remaining, v.piece);
      var w' := Turn(digest, bs, w, j, v);
      && (w'.crashed <==> Fails(digest, piece, v.answers))
      && (w'.crashed ==> w' == w.(crashed := true))
      && ((forall a :: a in v.answers ==> Useless(digest, piece, a)) ==> w' == w)
      && forall k: nat :: FirstUseful(digest, piece, v.answers, k) ==>
          w' == Store(w, j, piece, v.answers[k].text[2..], bs)
  {
    hide FirstGood, Delivers, Fails, Fatal, Useless, Store, ReadIntOr, Sha1;
    var piece := Wanted(w.entries[j].remaining, v.piece);
    FirstGoodIff(digest, piece, v.answers);
    StoreSurvives(w, j, piece, bs);
    if forall a :: a in v.answers ==> Useless(digest, piece, a) {
      FirstDecides(digest, piece, v.answers, |v.answers|);
    }
    forall k: nat | FirstUseful(digest, piece, v.answers, k)
      ensures FirstGood(digest, piece, v.answers) == Got(v.answers[k].text[2..])
    {
      FirstDecides(digest, piece, v.answers, k);
    }
  }

  lemma StoreSurvives(w: World, j: nat, piece: string, bs: BlockSize)
    requires j < |w.entries|
    ensures forall data :: Store(w, j, piece, data, bs).crashed == w.crashed
  {
  }

  lemma {:induction false} UselessInFront(digest: string -> Digest, piece: string, pre: seq<Answer>,
                                          answers: seq<Answer>)
    requires forall a :: a in pre ==> Useless(digest, piece, a)
    ensures FirstGood(digest, piece, pre + answers) == FirstGood(digest, piece, answers)
  {
    hide Judge, Useless, Good, Fatal;
    if pre == [] {
      assert pre + answers == answers;
    } else {
      JudgeIs(digest, piece, pre[0]);
      assert (pre + answers)[1..] == pre[1..] + answers;
      UselessInFront(digest, piece, pre[1..], answers);
    }
  }

  /** Peers that are down, have not got the piece or send something else change nothing, wherever they stand. */
  lemma UselessPeersDoNotMatter(digest: string -> Digest, bs: BlockSize, w: World, j: nat, v: Visit,
                                pre: seq<Answer>)
    requires j < |w.entries|
    requires !Complete(w.entries[j]) ==>
      forall a :: a in pre ==> Useless(digest, Wanted(w.entries[j].remaining, v.piece), a)
    ensures Turn(digest, bs, w, j, Visit(v.piece, pre + v.answers)) == Turn(digest, bs, w, j, v)
  {
    hide FirstGood, Useless;
    if !Complete(w.entries[j]) {
      UselessInFront(digest, Wanted(w.entries[j].remaining, v.piece), pre, v.answers);
    }
  }

  /** The first `k` entries of one pass over the queue. */
  ghost function PassTo(digest: string -> Digest, bs: BlockSize, w: World, visits: seq<Visit>, k: nat): (w': World)
    requires k <= |visits| == |w.entries|
    ensures |w'.entries| == |w.entries|
  {
    if k == 0 then w else Turn(digest, bs, PassTo(digest, bs, w, visits, k - 1), k - 1, visits[k - 1])
  }

  predicate Shaped(rounds: seq<seq<Visit>>, n: nat) {
    forall r :: 0 <= r < |rounds| ==> |rounds[r]| == n
  }

  /** The worker after some passes. */
  ghost function Worker(digest: string -> Digest, bs: BlockSize, w: World, rounds: seq<seq<Visit>>): (w': World)
    requires Shaped(rounds, |w.entries|)
    ensures |w'.entries| == |w.entries|
  {
    if rounds == [] then w
    else
      var before := Worker(digest, bs, w, rounds[..|rounds| - 1]);
      PassTo(digest, bs, before, rounds[|rounds| - 1], |w.entries|)
  }

  // ---- Accounting: what holds for any peers ----

  function Remaining(entries: seq<Entry>): nat {
    if entries == [] then 0 else |entries[0].remaining| + Remaining(entries[1..])
  }

  predicate Unfinished(e: Entry) {
    e.downloaded == {} && e.remaining == PieceSet(e.info)
  }

  /** A queue as enqueue_download builds it. */
  predicate Queued(w: World) {
    && (forall j :: 0 <= j < |w.entries| ==> Unfinished(w.entries[j]))
    && w.finished == [] && w.writes == [] && !w.crashed
  }

  predicate SameFile(e: Entry, e': Entry) {
    e.groupId == e'.groupId && e.info == e'.info && e.path == e'.path
  }

  /** The callback has fired once if the entry became complete, and not otherwise. */
  ghost predicate FinishedOnce(finished: seq<nat>, j: nat, e: Entry) {
    multiset(finished)[j] == if Complete(e) && PieceSet(e.info) != {} then 1 else 0
  }

  /** Exactly the downloaded pieces have been written, each once. */
  ghost predicate WrittenOnce(writes: seq<(nat, string)>, j: nat, e: Entry) {
    forall p :: multiset(writes)[(j, p)] == if p in e.downloaded then 1 else 0
  }

  ghost predicate CountedEntry(w: World, j: nat)
    requires j < |w.entries|
  {
    var e := w.entries[j];
    Partitioned(e) && FinishedOnce(w.finished, j, e) && WrittenOnce(w.writes, j, e)
  }

  ghost predicate Accounts(w0: World, w: World) {
    && |w.entries| == |w0.entries|
    && (forall j :: 0 <= j < |w.entries| ==> SameFile(w.entries[j], w0.entries[j]))
    && (forall j :: 0 <= j < |w.entries| ==> CountedEntry(w, j))
    && Remaining(w.entries) + |w.writes| == Remaining(w0.entries)
  }

  lemma {:induction false} RemainingUpdate(entries: seq<Entry>, j: nat, e: Entry)
    requires j < |entries|
    ensures Remaining(entries[j := e]) + |entries[j].remaining| == Remaining(entries) + |e.remaining|
    decreases |entries|
  {
    if j == 0 {
      assert entries[0 := e][1..] == entries[1..];
    } else {
      assert entries[j := e][1..] == entries[1..][j - 1 := e];
      RemainingUpdate(entries[1..], j - 1, e);
    }
  }

  lemma MarkKeeps(e: Entry, piece: string)
    requires Partitioned(e) && piece in e.remaining
    ensures var e' := Mark(e, piece);
      && Partitioned(e') && SameFile(e', e) && piece in PieceSet(e.info) && piece !in e.downloaded
      && e'.downloaded == e.downloaded + {piece} && e'.remaining == e.remaining - {piece}
      && |e'.remaining| == |e.remaining| - 1
  {
    assert piece in e.downloaded + e.remaining;
  }

  lemma WriteCounts(writes: seq<(nat, string)>, j: nat, piece: string, i: nat, e: Entry, e': Entry)
    requires WrittenOnce(writes, i, e)
    requires if i == j then piece !in e.downloaded && e'.downloaded == e.downloaded + {piece} else e' == e
    ensures WrittenOnce(writes + [(j, piece)], i, e')
  {
    assert multiset(writes + [(j, piece)]) == multiset(writes) + multiset{(j, piece)};
  }

  lemma StoreCounts(w: World, j: nat, piece: string, data: string, bs: BlockSize, i: nat)
    requires j < |w.entries| && i < |w.entries| && CountedEntry(w, j) && CountedEntry(w, i)
    requires piece in w.entries[j].remaining
    ensures CountedEntry(Store(w, j, piece, data, bs), i)
  {
    hide PutBlock, PieceIndex, Mark, SameFile, WrittenOnce, Partitioned;
    var e := w.entries[j];
    var e' := Mark(e, piece);
    var w' := Store(w, j, piece, data, bs);
    MarkKeeps(e, piece);
    WriteCounts(w.writes, j, piece, i, w.entries[i], w'.entries[i]);
    assert multiset(w'.finished) == multiset(w.finished) + if Complete(e') then multiset{j} else multiset{};
    assert FinishedOnce(w'.finished, i, w'.entries[i]);
  }

  lemma TurnAccounts(digest: string -> Digest, bs: BlockSize, w0: World, w: World, j: nat, v: Visit)
    requires j < |w.entries| && Accounts(w0, w)
    ensures Accounts(w0, Turn(digest, bs, w, j, v))
  {
    hide CountedEntry, FirstGood;
    var e, w' := w.entries[j], Turn(digest, bs, w, j, v);
    if !w.crashed && !Complete(e) {
      var piece := Wanted(e.remaining, v.piece);
      match FirstGood(digest, piece, v.answers)
      case Got(data) =>
        CountedIsPartitioned(w, j);
        MarkKeeps(e, piece);
        RemainingUpdate(w.entries, j, Mark(e, piece));
        forall i | 0 <= i < |w.entries| ensures CountedEntry(w', i) {
          StoreCounts(w, j, piece, data, bs, i);
        }
      case Threw =>
        forall i | 0 <= i < |w.entries| ensures CountedEntry(w', i) {
          CrashCounts(w, i);
        }
      case Nobody =>
    }
  }

  lemma CountedIsPartitioned(w: World, j: nat)
    requires j < |w.entries| && CountedEntry(w, j)
    ensures Partitioned(w.entries[j])
  {
  }

  lemma CrashCounts(w: World, i: nat)
    requires i < |w.entries| && CountedEntry(w, i)
    ensures CountedEntry(w.(crashed := true), i)
  {
  }

  lemma {:induction false} PassAccounts(digest: string -> Digest, bs: BlockSize, w0: World, w: World,
                                        visits: seq<Visit>, k: nat)
    requires k <= |visits| == |w.entries| && Accounts(w0, w)
    ensures Accounts(w0, PassTo(digest, bs, w, visits, k))
  {
    hide Accounts, Turn;
    if k > 0 {
      PassAccounts(digest, bs, w0, w, visits, k - 1);
      TurnAccounts(digest, bs, w0, PassTo(digest, bs, w, visits, k - 1), k - 1, visits[k - 1]);
    }
  }

  lemma QueuedAccounts(w: World)
    requires Queued(w)
    ensures Accounts(w, w)
  {
  }

  /** Over every run, whatever the peers do: downloaded and remaining pieces partition the pieces of each file;
      the callback fires exactly once for each file that has become complete and had a piece, and never for
      another; each piece is written exactly once for each entry that has it; and the pieces still remaining
      and the writes add up to the pieces of the whole queue. */
  lemma {:induction false} WorkerAccounts(digest: string -> Digest, bs: BlockSize, w: World,
                                          rounds: seq<seq<Visit>>)
    requires Queued(w) && Shaped(rounds, |w.entries|)
    ensures Accounts(w, Worker(digest, bs, w, rounds))
    decreases |rounds|
  {
    hide Accounts, Queued, PassTo;
    if rounds == [] {
      QueuedAccounts(w);
    } else {
      var n := |rounds| - 1;
      WorkerAccounts(digest, bs, w, rounds[..n]);
      PassAccounts(digest, bs, w, Worker(digest, bs, w, rounds[..n]), rounds[n], |w.entries|);
    }
  }

  // ---- Progress ----

  ghost predicate Served(digest: string -> Digest, e: Entry, v: Visit) {
    Complete(e) || Delivers(digest, Wanted(e.remaining, v.piece), v.answers)
  }

  ghost predicate Survived(digest: string -> Digest, e: Entry, v: Visit) {
    Complete(e) || !Fails(digest, Wanted(e.remaining, v.piece), v.answers)
  }

  /** The worker comes to entry `i` in this pass, and its visit is served. */
  ghost predicate Feeds(digest: string -> Digest, bs: BlockSize, w: World, visits: seq<Visit>, i: nat)
    requires i < |visits| == |w.entries|
  {
    var before := PassTo(digest, bs, w, visits, i);
    !before.crashed && Served(digest, before.entries[i], visits[i])
  }

  /** In how many passes it does. */
  ghost function Fed(digest: string -> Digest, bs: BlockSize, w: World, rounds: seq<seq<Visit>>, i: nat): nat
    requires Shaped(rounds, |w.entries|) && i < |w.entries|
  {
    if rounds == [] then 0
    else
      var n := |rounds| - 1;
      Fed(digest, bs, w, rounds[..n], i)
      + if Feeds(digest, bs, Worker(digest, bs, w, rounds[..n]), rounds[n], i) then 1 else 0
  }

  function Less(n: nat, k: nat): nat {
    if n < k then 0 else n - k
  }

  /** A visit touches only its own entry, and a served one takes one piece off. */
  lemma TurnProgress(digest: string -> Digest, bs: BlockSize, w: World, j: nat, v: Visit, i: nat)
    requires j < |w.entries| && i < |w.entries| && Partitioned(w.entries[j])
    ensures var w' := Turn(digest, bs, w, j, v);
      var served := i == j && !w.crashed && Served(digest, w.entries[j], v);
      && |w'.entries[i].remaining| == Less(|w.entries[i].remaining|, if served then 1 else 0)
      && (i != j ==> w'.entries[i] == w.entries[i])
  {
    hide FirstGood, Delivers, Fails;
    var e := w.entries[j];
    if !Complete(e) {
      MarkKeeps(e, Wanted(e.remaining, v.piece));
      FirstGoodIff(digest, Wanted(e.remaining, v.piece), v.answers);
    }
  }

  lemma {:induction false} PassProgress(digest: string -> Digest, bs: BlockSize, w0: World, w: World,
                                        visits: seq<Visit>, k: nat, i: nat)
    requires k <= |visits| == |w.entries| && i < |w.entries| && Accounts(w0, w)
    ensures |PassTo(digest, bs, w, visits, k).entries[i].remaining| ==
      Less(|w.entries[i].remaining|, if i < k && Feeds(digest, bs, w, visits, i) then 1 else 0)
    decreases k
  {
    hide Turn, Accounts, Served;
    if k > 0 {
      PassProgress(digest, bs, w0, w, visits, k - 1, i);
      PassAccounts(digest, bs, w0, w, visits, k - 1);
      var before := PassTo(digest, bs, w, visits, k - 1);
      AccountsPartition(w0, before, k - 1);
      TurnProgress(digest, bs, before, k - 1, visits[k - 1], i);
    }
  }

  lemma AccountsPartition(w0: World, w: World, j: nat)
    requires Accounts(w0, w) && j < |w.entries|
    ensures Partitioned(w.entries[j]) && SameFile(w.entries[j], w0.entries[j])
  {
    assert CountedEntry(w, j);
  }

  /** Whatever the peers do and whatever else is queued: each pass that serves a file takes exactly one piece off it,
      and nothing else does. It is complete as soon as there were as many such passes as it has distinct pieces, and
      not earlier. */
  lemma {:induction false} WorkerProgress(digest: string -> Digest, bs: BlockSize, w: World,
                                          rounds: seq<seq<Visit>>, i: nat)
    requires Queued(w) && Shaped(rounds, |w.entries|) && i < |w.entries|
    ensures var (w', fed) := (Worker(digest, bs, w, rounds), Fed(digest, bs, w, rounds, i));
      && |w'.entries[i].remaining| == Less(|PieceSet(w.entries[i].info)|, fed)
      && (Complete(w'.entries[i]) <==> |PieceSet(w.entries[i].info)| <= fed)
    decreases |rounds|
  {
    hide PassTo, Accounts, Feeds;
    if rounds != [] {
      var n := |rounds| - 1;
      WorkerProgress(digest, bs, w, rounds[..n], i);
      WorkerAccounts(digest, bs, w, rounds[..n]);
      PassProgress(digest, bs, w, Worker(digest, bs, w, rounds[..n]), rounds[n], |w.entries|, i);
    }
  }

  // ---- When every pass serves a file ----

  /** The visit to entry `i` is served; the others need not be, but none makes the worker throw. */
  ghost predicate ServedPass(digest: string -> Digest, bs: BlockSize, w: World, visits: seq<Visit>, i: nat)
    requires |visits| == |w.entries|
  {
    forall k :: 0 <= k < |visits| ==>
      var e := PassTo(digest, bs, w, visits, k).entries[k];
      Survived(digest, e, visits[k]) && (k == i ==> Served(digest, e, visits[k]))
  }

  ghost predicate ServedRounds(digest: string -> Digest, bs: BlockSize, w: World, rounds: seq<seq<Visit>>, i: nat)
    requires Shaped(rounds, |w.entries|)
  {
    rounds == [] ||
    var n := |rounds| - 1;
    && ServedRounds(digest, bs, w, rounds[..n], i)
    && ServedPass(digest, bs, Worker(digest, bs, w, rounds[..n]), rounds[n], i)
  }

  lemma SurvivedTurn(digest: string -> Digest, bs: BlockSize, w: World, j: nat, v: Visit)
    requires j < |w.entries| && !w.crashed && Survived(digest, w.entries[j], v)
    ensures !Turn(digest, bs, w, j, v).crashed
  {
    hide FirstGood, Delivers, Fails;
    if !Complete(w.entries[j]) {
      FirstGoodIff(digest, Wanted(w.entries[j].remaining, v.piece), v.answers);
    }
  }

  lemma {:induction false} ServedPassSurvives(digest: string -> Digest, bs: BlockSize, w: World, visits: seq<Visit>,
                                              i: nat, k: nat)
    requires k <= |visits| == |w.entries| && !w.crashed && ServedPass(digest, bs, w, visits, i)
    ensures !PassTo(digest, bs, w, visits, k).crashed
    decreases k
  {
    hide Turn, Served, Survived;
    if k > 0 {
      ServedPassSurvives(digest, bs, w, visits, i, k - 1);
      SurvivedTurn(digest, bs, PassTo(digest, bs, w, visits, k - 1), k - 1, visits[k - 1]);
    }
  }

  /** Then the file is fed in every pass, and the worker goes on. */
  lemma {:induction false} ServedRoundsFeed(digest: string -> Digest, bs: BlockSize, w: World,
                                            rounds: seq<seq<Visit>>, i: nat)
    requires !w.crashed && Shaped(rounds, |w.entries|) && i < |w.entries|
    requires ServedRounds(digest, bs, w, rounds, i)
    ensures Fed(digest, bs, w, rounds, i) == |rounds| && !Worker(digest, bs, w, rounds).crashed
    decreases |rounds|
  {
    hide PassTo, Served, Survived;
    if rounds != [] {
      var n := |rounds| - 1;
      ServedRoundsFeed(digest, bs, w, rounds[..n], i);
      var before := Worker(digest, bs, w, rounds[..n]);
      ServedPassSurvives(digest, bs, before, rounds[n], i, i);
      ServedPassSurvives(digest, bs, before, rounds[n], i, |w.entries|);
    }
  }
}
