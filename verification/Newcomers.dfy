/** What of a tracker stems from its newer users, and a smaller tracker that holds just that. */
module Newcomers {
  import opened Streams
  import opened Codec
  import opened Requests
  import opened TrackerSpec
  import opened Agreement
  import opened Renaming

  /** Who first uploaded which file of which group. */
  type Announcers = map<(string, string), User>

  /** A successful upload of a described file. */
  predicate AddsFile(s: State, c: Call) {
    && c.request.Upload? && c.request.args.Described? && c.origin in s.sessions
    && FileGuard(s, c.origin, c.request.groupId).None?
    && c.request.args.info.hash !in s.groups[c.request.groupId].files
  }

  function Announce(first: Announcers, s: State, c: Call): Announcers {
    if AddsFile(s, c) then first[(c.request.groupId, c.request.args.info.hash) := s.sessions[c.origin]] else first
  }

  predicate Newer(first: Announcers, from: nat, id: string, hash: string) {
    (id, hash) in first && first[(id, hash)].id >= from
  }

  /** The user with the number that it has where `shift` others were created before it. */
  function Moved(u: User, shift: nat): User {
    u.(id := u.id + shift)
  }

  ghost predicate PartOfSet(us: set<User>, us': set<User>, from: nat) {
    forall u :: u in us' <==> Moved(u, from) in us
  }

  /** `g'` has the members, requesters and files of `g` that stem from users numbered from `from` on. */
  ghost predicate PartOfGroup(g: GroupState, g': GroupState, id: string, from: nat, first: Announcers) {
    && g.owner == Moved(g'.owner, from)
    && PartOfSet(g.users, g'.users, from) && PartOfSet(g.requests, g'.requests, from)
    && (forall h :: h in g'.files <==> h in g.files && Newer(first, from, id, h))
    && (forall h :: h in g'.files ==> g'.files[h].info == g.files[h].info)
  }

  /** `m'` has exactly the entries of `m` for users numbered from `from` on, its own numbers starting over. */
  ghost predicate PartOf<K(!new)>(m: map<K, User>, m': map<K, User>, from: nat) {
    && (forall k :: k in m' <==> k in m && m[k].id >= from)
    && (forall k :: k in m' ==> m[k] == Moved(m'[k], from))
  }

  ghost predicate PartOfGroups(groups: map<string, GroupState>, groups': map<string, GroupState>, from: nat,
                               first: Announcers)
  {
    && (forall id :: id in groups' <==> id in groups && groups[id].owner.id >= from)
    && (forall id :: id in groups' ==> PartOfGroup(groups[id], groups'[id], id, from, first))
  }

  /** `t` has exactly the accounts, sessions and groups of `s` that belong to users numbered from `from` on. */
  ghost predicate Part(s: State, t: State, from: nat, first: Announcers) {
    && s.created == t.created + from
    && PartOf(s.users, t.users, from) && PartOf(s.sessions, t.sessions, from)
    && PartOfGroups(s.groups, t.groups, from, first)
  }

  // ---- Tables ----

  lemma PartOfUpdate<K(!new)>(m: map<K, User>, m': map<K, User>, from: nat, k: K, u: User)
    requires PartOf(m, m', from)
    ensures PartOf(m[k := Moved(u, from)], m'[k := u], from)
  {
  }

  lemma PartOfOldUpdate<K(!new)>(m: map<K, User>, m': map<K, User>, from: nat, k: K, u: User)
    requires PartOf(m, m', from) && k !in m' && u.id < from
    ensures PartOf(m[k := u], m', from)
  {
  }

  lemma PartOfRemoval<K(!new)>(m: map<K, User>, m': map<K, User>, from: nat, k: K)
    requires PartOf(m, m', from)
    ensures PartOf(m - {k}, m' - {k}, from)
    ensures k !in m' ==> PartOf(m - {k}, m', from)
  {
  }

  lemma AgreeingPart(s: State, s': State, t: State, from: nat, first: Announcers)
    requires Part(s, t, from, first) && Agree(s, s')
    ensures Part(s', t, from, first)
  {
    hide PartOf;
    forall id | id in t.groups ensures PartOfGroup(s'.groups[id], t.groups[id], id, from, first) {
      assert SameGroup(s.groups[id], s'.groups[id]);
    }
  }

  /** The two say the same about who announced the files of other groups. */
  ghost predicate SameElsewhere(first: Announcers, first': Announcers, from: nat, id: string) {
    forall id', h :: id' != id ==> (Newer(first', from, id', h) <==> Newer(first, from, id', h))
  }

  lemma OtherGroupKeepsPart(g: GroupState, g': GroupState, id: string, id': string, from: nat, first: Announcers,
                            first': Announcers)
    requires PartOfGroup(g, g', id', from, first) && SameElsewhere(first, first', from, id) && id' != id
    ensures PartOfGroup(g, g', id', from, first')
  {
    hide Newer;
  }

  /** A group and its part change together. */
  lemma GroupUpdate(s: State, t: State, id: string, g: GroupState, g': GroupState, from: nat,
                    first: Announcers, first': Announcers)
    requires Part(s, t, from, first) && PartOfGroup(g, g', id, from, first')
    requires SameElsewhere(first, first', from, id)
    ensures Part(WithGroup(s, id, g), WithGroup(t, id, g'), from, first')
  {
    hide PartOf, PartOfGroup, SameElsewhere;
    PartOfOwner(g, g', id, from, first');
    forall id' | id' in t.groups && id' != id
      ensures PartOfGroup(s.groups[id'], t.groups[id'], id', from, first')
    {
      OtherGroupKeepsPart(s.groups[id'], t.groups[id'], id, id', from, first, first');
    }
  }

  lemma PartOfOwner(g: GroupState, g': GroupState, id: string, from: nat, first: Announcers)
    requires PartOfGroup(g, g', id, from, first)
    ensures g.owner == Moved(g'.owner, from) && PartOfSet(g.requests, g'.requests, from)
  {
  }

  /** A group without a part changes alone. */
  lemma OldGroupUpdate(s: State, t: State, id: string, g: GroupState, from: nat, first: Announcers,
                       first': Announcers)
    requires Part(s, t, from, first) && g.owner.id < from && id !in t.groups
    requires SameElsewhere(first, first', from, id)
    ensures Part(WithGroup(s, id, g), t, from, first')
  {
    hide PartOf, PartOfGroup, SameElsewhere;
    forall id' | id' in t.groups ensures PartOfGroup(s.groups[id'], t.groups[id'], id', from, first') {
      OtherGroupKeepsPart(s.groups[id'], t.groups[id'], id, id', from, first, first');
    }
  }

  // ---- User requests ----

  lemma CreateUserKeepsPart(s: State, t: State, name: string, password: string, from: nat, first: Announcers)
    requires Part(s, t, from, first) && CreateUserStep(s, name, password).1.Success()
    ensures Part(CreateUserStep(s, name, password).0, CreateUserStep(t, name, password).0, from, first)
  {
    hide PartOfGroups;
    PartOfUpdate(s.users, t.users, from, name, User(t.created, name, password));
  }

  lemma DeleteUserKeepsPart(s: State, t: State, name: string, from: nat, first: Announcers)
    requires Part(s, t, from, first) && DeleteUserStep(s, name).1.Success()
    ensures Part(DeleteUserStep(s, name).0, DeleteUserStep(t, name).0, from, first)
  {
    hide PartOfGroups;
    PartOfRemoval(s.users, t.users, from, name);
  }

  lemma LoginKeepsPart(s: State, t: State, origin: Size, name: string, password: string, from: nat,
                       first: Announcers)
    requires Part(s, t, from, first) && LoginStep(s, origin, name, password).1.Success()
    ensures Part(LoginStep(s, origin, name, password).0, LoginStep(t, origin, name, password).0, from, first)
  {
    hide PartOfGroups;
    if name in t.users {
      PartOfUpdate(s.sessions, t.sessions, from, origin, t.users[name]);
    } else {
      PartOfOldUpdate(s.sessions, t.sessions, from, origin, s.users[name]);
    }
  }

  lemma LogoutKeepsPart(s: State, t: State, origin: Size, from: nat, first: Announcers)
    requires Part(s, t, from, first) && LogoutStep(s, origin).1.Success()
    ensures Part(LogoutStep(s, origin).0, LogoutStep(t, origin).0, from, first)
  {
    hide PartOfGroups;
    PartOfRemoval(s.sessions, t.sessions, from, origin);
  }

  // ---- Group requests ----

  /** What the request of a session does to the group's members and requesters, and to those of its part. */
  ghost predicate ChangesTogether(g: GroupState, g2: GroupState, g': GroupState, g2': GroupState, from: nat, u: User) {
    forall id, first :: PartOfGroup(g, g', id, from, first) ==>
      PartOfGroup(g2, if u.id >= from then g2' else g', id, from, first)
  }

  /** The request of a user changes a group: its part changes in the same way if the user is a newer one, and not
      at all otherwise. */
  lemma SessionUpdate(s: State, t: State, origin: Size, id: string, from: nat, first: Announcers, g2: GroupState,
                      g2': GroupState)
    requires Part(s, t, from, first) && origin in s.sessions && id in s.groups && g2.owner == s.groups[id].owner
    requires id in t.groups ==> ChangesTogether(s.groups[id], g2, t.groups[id], g2', from, s.sessions[origin])
    ensures Part(WithGroup(s, id, g2),
                 if origin in t.sessions && id in t.groups then WithGroup(t, id, g2') else t, from, first)
  {
    hide Part, PartOfGroup;
    PartTables(s, t, origin, id, from, first);
    if id in t.groups {
      assert PartOfGroup(s.groups[id], t.groups[id], id, from, first);
      GroupUpdate(s, t, id, g2, if origin in t.sessions then g2' else t.groups[id], from, first, first);
      assert t.groups[id := t.groups[id]] == t.groups;
    } else {
      OldGroupUpdate(s, t, id, g2, from, first, first);
    }
  }

  lemma PartTables(s: State, t: State, origin: Size, id: string, from: nat, first: Announcers)
    requires Part(s, t, from, first)
    ensures origin in t.sessions <==> origin in s.sessions && s.sessions[origin].id >= from
    ensures origin in t.sessions ==> s.sessions[origin] == Moved(t.sessions[origin], from)
    ensures id in t.groups <==> id in s.groups && s.groups[id].owner.id >= from
    ensures id in t.groups ==> PartOfGroup(s.groups[id], t.groups[id], id, from, first)
  {
    hide PartOfGroup;
  }

  lemma CreateGroupKeepsPart(s: State, t: State, origin: Size, id: string, from: nat, first: Announcers)
    requires Part(s, t, from, first) && CreateGroupStep(s, origin, id).1.Success()
    ensures Part(CreateGroupStep(s, origin, id).0, CreateGroupStep(t, origin, id).0, from, first)
  {
    hide Part;
    PartTables(s, t, origin, id, from, first);
    var g := GroupState(s.sessions[origin], {}, {}, map[]);
    if origin in t.sessions {
      GroupUpdate(s, t, id, g, GroupState(t.sessions[origin], {}, {}, map[]), from, first, first);
    } else {
      OldGroupUpdate(s, t, id, g, from, first, first);
    }
  }

  lemma JoinKeepsPart(s: State, t: State, origin: Size, id: string, from: nat, first: Announcers)
    requires Part(s, t, from, first) && JoinStep(s, origin, id).1.Success()
    ensures Part(JoinStep(s, origin, id).0, JoinStep(t, origin, id).0, from, first)
  {
    hide Part, WithGroup;
    PartTables(s, t, origin, id, from, first);
    var g, u := s.groups[id], s.sessions[origin];
    if id in t.groups && origin in t.sessions {
      var g', u' := t.groups[id], t.sessions[origin];
      SessionUpdate(s, t, origin, id, from, first, g.(requests := g.requests + {u}),
                    g'.(requests := g'.requests + {u'}));
    } else {
      SessionUpdate(s, t, origin, id, from, first, g.(requests := g.requests + {u}), g);
    }
  }

  lemma LeaveKeepsPart(s: State, t: State, origin: Size, id: string, from: nat, first: Announcers)
    requires Part(s, t, from, first) && LeaveStep(s, origin, id).1.Success()
    ensures Part(LeaveStep(s, origin, id).0, LeaveStep(t, origin, id).0, from, first)
  {
    hide Part, WithGroup;
    PartTables(s, t, origin, id, from, first);
    var g, u := s.groups[id], s.sessions[origin];
    if id in t.groups && origin in t.sessions {
      var g', u' := t.groups[id], t.sessions[origin];
      SessionUpdate(s, t, origin, id, from, first, g.(users := g.users - {u}), g'.(users := g'.users - {u'}));
    } else {
      SessionUpdate(s, t, origin, id, from, first, g.(users := g.users - {u}), g);
    }
  }

  /** Among the requesters of a part is one of that name exactly if the only one in the group is a newer user. */
  lemma RequestersOfPart(g: GroupState, g': GroupState, name: string, v: User, from: nat)
    requires PartOfSet(g.requests, g'.requests, from) && Requesters(g, name) == {v}
    ensures v.id < from ==> Requesters(g', name) == {}
    ensures v.id >= from ==> Requesters(g', name) == {v.(id := v.id - from)}
  {
    forall u | u in Requesters(g', name) ensures Moved(u, from) == v {
      assert Moved(u, from) in Requesters(g, name);
    }
    if v.id >= from {
      var u := v.(id := v.id - from);
      assert Moved(u, from) == v && v in Requesters(g, name);
      assert u in Requesters(g', name);
    }
  }

  lemma AdmitKeepsPart(g: GroupState, g': GroupState, u: User, id: string, from: nat, first: Announcers)
    requires PartOfGroup(g, g', id, from, first)
    ensures PartOfGroup(Admit(g, Moved(u, from)), Admit(g', u), id, from, first)
    ensures u.id < from ==> PartOfGroup(Admit(g, u), g', id, from, first)
  {
  }

  lemma AcceptKeepsPart(s: State, t: State, origin: Size, id: string, name: string, p: User, q: User, from: nat,
                        first: Announcers)
    requires Part(s, t, from, first) && AcceptStep(s, origin, id, name, p).1.Success()
    requires Unambiguous(s, Call(origin, AcceptRequest(id, name)))
    ensures Part(AcceptStep(s, origin, id, name, p).0, AcceptStep(t, origin, id, name, q).0, from, first)
  {
    hide Part, PartOfGroup, Admit, WithGroup;
    PartTables(s, t, origin, id, from, first);
    var g := s.groups[id];
    var v := Chosen(Requesters(g, name), p);
    assert v in Requesters(g, name);
    assert Requesters(g, name) == {v};
    AdmitKeepsOwner(g, v);
    if id in t.groups {
      var g' := t.groups[id];
      PartOfOwner(g, g', id, from, first);
      RequestersOfPart(g, g', name, v, from);
      if v.id >= from {
        var u := v.(id := v.id - from);
        AdmitKeepsPart(g, g', u, id, from, first);
        GroupUpdate(s, t, id, Admit(g, v), Admit(g', u), from, first, first);
      } else {
        AdmitKeepsPart(g, g', v, id, from, first);
        GroupUpdate(s, t, id, Admit(g, v), g', from, first, first);
        WithSameGroup(t, id);
      }
    } else {
      OldGroupUpdate(s, t, id, Admit(g, v), from, first, first);
    }
  }

  lemma AdmitKeepsOwner(g: GroupState, u: User)
    ensures Admit(g, u).owner == g.owner
  {
  }

  lemma WithSameGroup(t: State, id: string)
    requires id in t.groups
    ensures WithGroup(t, id, t.groups[id]) == t
  {
    assert t.groups[id := t.groups[id]] == t.groups;
  }

  // ---- Uploads ----

  lemma PartOfGuard(s: State, t: State, origin: Size, id: string, from: nat, first: Announcers)
    requires Part(s, t, from, first) && FileGuard(s, origin, id).None?
    ensures origin in s.sessions && id in s.groups
    ensures FileGuard(t, origin, id).None? <==> origin in t.sessions && id in t.groups
  {
    hide Part;
    PartTables(s, t, origin, id, from, first);
  }

  lemma AddFileKeepsPart(g: GroupState, g': GroupState, id: string, info: FileInfo, endpoint: Endpoint, u: User,
                         from: nat, first: Announcers)
    requires PartOfGroup(g, g', id, from, first) && info.hash !in g.files
    ensures info.hash !in g'.files
    ensures var first' := first[(id, info.hash) := u];
      PartOfGroup(AddFile(g, info, endpoint), if u.id >= from then AddFile(g', info, endpoint) else g', id, from,
                  first')
  {
  }

  lemma UploadKeepsPart(s: State, t: State, origin: Size, id: string, args: UploadArgs, p: Size, q: Size, from: nat,
                        first: Announcers)
    requires Part(s, t, from, first) && UploadStep(s, origin, id, WithSize(args, p)).1.Success()
    requires !StoresUnset(s, Call(origin, Upload(id, args)))
    ensures Part(UploadStep(s, origin, id, WithSize(args, p)).0, UploadStep(t, origin, id, WithSize(args, q)).0,
                 from, Announce(first, s, Call(origin, Upload(id, args))))
  {
    hide Part, PartOfGroup, FileGuard;
    PartOfGuard(s, t, origin, id, from, first);
    PartTables(s, t, origin, id, from, first);
    var g, h := s.groups[id], args.info.hash;
    var first' := first[(id, h) := s.sessions[origin]];
    assert Announce(first, s, Call(origin, Upload(id, args))) == first';
    if id !in t.groups {
      OldGroupUpdate(s, t, id, AddFile(g, args.info, args.endpoint), from, first, first');
    } else if origin in t.sessions {
      AddFileKeepsPart(g, t.groups[id], id, args.info, args.endpoint, s.sessions[origin], from, first);
      GroupUpdate(s, t, id, AddFile(g, args.info, args.endpoint), AddFile(t.groups[id], args.info, args.endpoint),
                  from, first, first');
    } else {
      AddFileKeepsPart(g, t.groups[id], id, args.info, args.endpoint, s.sessions[origin], from, first);
      GroupUpdate(s, t, id, AddFile(g, args.info, args.endpoint), t.groups[id], from, first, first');
      WithSameGroup(t, id);
    }
  }

  // ---- All requests ----

  /** If a request succeeds on a tracker, then a tracker that holds the part of the newer users, given the same
      request, holds that part again. */
  lemma StepKeepsPart(s: State, t: State, c: Call, p: Pick, q: Pick, from: nat, first: Announcers)
    requires Part(s, t, from, first) && Determined(s, c) && Step(s, c, p).1.Success()
    ensures Part(Step(s, c, p).0, Step(t, c, q).0, from, Announce(first, s, c))
  {
    hide Part, Unambiguous, CreateUserStep, DeleteUserStep, LoginStep, LogoutStep, CreateGroupStep, JoinStep,
      LeaveStep, AcceptStep, UploadStep, DownloadStep, FileGuard, WithSize;
    match c.request
    case CreateUser(name, password) => CreateUserKeepsPart(s, t, name, password, from, first);
    case DeleteUser(name) => DeleteUserKeepsPart(s, t, name, from, first);
    case Login(name, password) => LoginKeepsPart(s, t, c.origin, name, password, from, first);
    case Logout => LogoutKeepsPart(s, t, c.origin, from, first);
    case CreateGroup(id) => CreateGroupKeepsPart(s, t, c.origin, id, from, first);
    case JoinGroup(id) => JoinKeepsPart(s, t, c.origin, id, from, first);
    case LeaveGroup(id) => LeaveKeepsPart(s, t, c.origin, id, from, first);
    case AcceptRequest(id, name) =>
      assert c == Call(c.origin, AcceptRequest(id, name));
      AcceptKeepsPart(s, t, c.origin, id, name, p.requester, q.requester, from, first);
    case Upload(id, args) =>
      assert c == Call(c.origin, Upload(id, args));
      UploadKeepsPart(s, t, c.origin, id, args, p.unset, q.unset, from, first);
    case Download(id, name) =>
      DownloadChangesNothing(s, c.origin, id, name, p.file);
      DownloadChangesNothing(t, c.origin, id, name, q.file);
    case _ =>
  }

  lemma DownloadChangesNothing(s: State, origin: Size, id: string, name: string, pick: string)
    ensures DownloadStep(s, origin, id, name, pick).0 == s
  {
  }

  // ---- When the part is everything ----

  ghost predicate AllFrom(us: set<User>, from: nat) {
    forall u :: u in us ==> u.id >= from
  }

  ghost predicate NothingOlderInGroup(g: GroupState, id: string, from: nat, first: Announcers) {
    && g.owner.id >= from && AllFrom(g.users, from) && AllFrom(g.requests, from)
    && forall h :: h in g.files ==> Newer(first, from, id, h)
  }

  ghost predicate NothingOlderInTable<K(!new)>(m: map<K, User>, from: nat) {
    forall k :: k in m ==> m[k].id >= from
  }

  /** No account, session, group, member, requester or first upload is left of a user below that number. */
  ghost predicate NothingOlder(s: State, from: nat, first: Announcers) {
    && NothingOlderInTable(s.users, from) && NothingOlderInTable(s.sessions, from)
    && (forall id :: id in s.groups ==> NothingOlderInGroup(s.groups[id], id, from, first))
  }

  ghost function Shift(from: nat): nat -> nat {
    i => i + from
  }

  lemma ShiftMoves(u: User, from: nat)
    ensures Renamed(u, Shift(from)) == Moved(u, from) && Injective(Shift(from))
  {
  }

  lemma SubsetOfSameSize<T>(a: set<T>, b: set<T>)
    requires a <= b && |b| <= |a|
    ensures a == b
  {
    assert b == a + (b - a);
  }

  lemma PartIsShifted(us: set<User>, us': set<User>, from: nat)
    requires PartOfSet(us, us', from)
    ensures RenamedAll(us', Shift(from)) == set u | u in us && u.id >= from
  {
    hide Shift, Renamed;
    forall v ensures v in RenamedAll(us', Shift(from)) <==> v in us && v.id >= from {
      if v in RenamedAll(us', Shift(from)) {
        var u :| u in us' && v == Renamed(u, Shift(from));
        ShiftMoves(u, from);
      } else if v.id >= from {
        var u := v.(id := v.id - from);
        ShiftMoves(u, from);
        assert Moved(u, from) == v;
      }
    }
  }

  /** However renamed, the part of a set of users is the whole set only if it has everybody. */
  lemma PartOfSetIff(us: set<User>, us': set<User>, from: nat, r: nat -> nat)
    requires PartOfSet(us, us', from)
    ensures us == RenamedAll(us', r) ==> AllFrom(us, from)
    ensures AllFrom(us, from) ==> us == RenamedAll(us', Shift(from))
  {
    hide PartOfSet, Shift;
    PartIsShifted(us, us', from);
    var shifted := RenamedAll(us', Shift(from));
    if us == RenamedAll(us', r) {
      ImageSize(us', r);
      ShiftMoves(ANY.requester, from);
      ImageSize(us', Shift(from));
      SubsetOfSameSize(shifted, us);
    }
  }

  lemma PartOfTableIff<K(!new)>(m: map<K, User>, m': map<K, User>, from: nat, r: nat -> nat)
    requires PartOf(m, m', from)
    ensures SameTable(m, m', r) ==> NothingOlderInTable(m, from)
    ensures NothingOlderInTable(m, from) ==> SameTable(m, m', Shift(from))
  {
    hide Shift, Renamed;
    forall k | k in m' ensures m[k] == Renamed(m'[k], Shift(from)) {
      ShiftMoves(m'[k], from);
    }
  }

  lemma PartOfGroupIff(g: GroupState, g': GroupState, id: string, from: nat, first: Announcers, r: nat -> nat)
    requires PartOfGroup(g, g', id, from, first)
    ensures SameRenamedGroup(g, g', r) ==> NothingOlderInGroup(g, id, from, first)
    ensures NothingOlderInGroup(g, id, from, first) ==> SameRenamedGroup(g, g', Shift(from))
  {
    hide Shift, Renamed, RenamedAll, AllFrom, PartOfSet, Newer;
    ShiftMoves(g'.owner, from);
    PartOfSetIff(g.users, g'.users, from, r);
    PartOfSetIff(g.requests, g'.requests, from, r);
  }

  /** A tracker that holds just the part of the newer users is alike the whole one exactly if nothing of the older
      ones is left there. */
  lemma PartIsAlikeIff(s: State, t: State, from: nat, first: Announcers)
    requires Part(s, t, from, first)
    ensures Alike(s, t) <==> NothingOlder(s, from, first)
  {
    hide Injective, SameTable, PartOf, NothingOlderInTable, SameRenamedGroup, NothingOlderInGroup, PartOfGroup, Shift;
    forall r: nat -> nat | Injective(r) && AgreeRenamed(s, t, r) ensures NothingOlder(s, from, first) {
      PartOfTableIff(s.users, t.users, from, r);
      PartOfTableIff(s.sessions, t.sessions, from, r);
      forall id | id in s.groups ensures NothingOlderInGroup(s.groups[id], id, from, first) {
        PartOfGroupIff(s.groups[id], t.groups[id], id, from, first, r);
      }
    }
    if NothingOlder(s, from, first) {
      var r := Shift(from);
      ShiftMoves(ANY.requester, from);
      PartOfTableIff(s.users, t.users, from, r);
      PartOfTableIff(s.sessions, t.sessions, from, r);
      forall id | id in s.groups ensures id in t.groups && SameRenamedGroup(s.groups[id], t.groups[id], r) {
        NothingOlderOwner(s, id, from, first);
        PartOfGroupIff(s.groups[id], t.groups[id], id, from, first, r);
      }
      assert AgreeRenamed(s, t, r);
    }
  }

  lemma NothingOlderOwner(s: State, id: string, from: nat, first: Announcers)
    requires NothingOlder(s, from, first) && id in s.groups
    ensures s.groups[id].owner.id >= from
  {
  }
}
