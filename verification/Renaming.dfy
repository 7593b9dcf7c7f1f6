/** Trackers that are alike up to the numbering of their users. The original tells user objects apart by their
    addresses, so two trackers can at most agree in which of them are the same. */
module Renaming {
  import opened Streams
  import opened TrackerSpec
  import opened Agreement
  import opened Runs

  function Renamed(u: User, r: nat -> nat): User {
    u.(id := r(u.id))
  }

  function RenamedAll(us: set<User>, r: nat -> nat): set<User> {
    set u | u in us :: Renamed(u, r)
  }

  ghost predicate SameTable<K(!new)>(m: map<K, User>, m': map<K, User>, r: nat -> nat) {
    m.Keys == m'.Keys && forall k :: k in m ==> m[k] == Renamed(m'[k], r)
  }

  ghost predicate SameRenamedGroup(g: GroupState, g': GroupState, r: nat -> nat) {
    && g.owner == Renamed(g'.owner, r) && SameFiles(g.files, g'.files)
    && g.users == RenamedAll(g'.users, r) && g.requests == RenamedAll(g'.requests, r)
  }

  ghost predicate AgreeRenamed(s: State, t: State, r: nat -> nat) {
    && SameTable(s.users, t.users, r) && SameTable(s.sessions, t.sessions, r)
    && s.groups.Keys == t.groups.Keys
    && forall id :: id in s.groups ==> SameRenamedGroup(s.groups[id], t.groups[id], r)
  }

  ghost predicate Injective(r: nat -> nat) {
    forall i, j :: r(i) == r(j) ==> i == j
  }

  /** The trackers differ at most in the seeders of their files and in how their users are numbered. How many users
      were ever created is not compared: the original does not count them. */
  ghost predicate Alike(s: State, t: State) {
    exists r: nat -> nat :: Injective(r) && AgreeRenamed(s, t, r)
  }

  lemma RenamedApart(u: User, v: User, r: nat -> nat)
    requires Injective(r) && Renamed(u, r) == Renamed(v, r)
    ensures u == v
  {
  }

  lemma {:induction false} ImageSize(us: set<User>, r: nat -> nat)
    ensures |RenamedAll(us, r)| <= |us|
    ensures Injective(r) ==> |RenamedAll(us, r)| == |us|
    decreases |us|
  {
    hide Renamed, Injective;
    if us == {} {
      assert RenamedAll(us, r) == {};
    } else {
      var u :| u in us;
      ImageSize(us - {u}, r);
      assert RenamedAll(us, r) == RenamedAll(us - {u}, r) + {Renamed(u, r)};
      if Injective(r) {
        forall v | v in us - {u} ensures Renamed(v, r) != Renamed(u, r) {
          if Renamed(v, r) == Renamed(u, r) {
            RenamedApart(u, v, r);
          }
        }
      }
    }
  }

  lemma AgreeingAreAlike(s: State, t: State)
    requires Agree(s, t)
    ensures Alike(s, t)
  {
    hide RenamedAll;
    var r: nat -> nat := i => i;
    forall us ensures RenamedAll(us, r) == us {
      IdentityRenames(us, r);
    }
    forall id | id in s.groups ensures SameRenamedGroup(s.groups[id], t.groups[id], r) {
      assert SameGroup(s.groups[id], t.groups[id]);
    }
    assert Injective(r) && AgreeRenamed(s, t, r);
  }

  lemma IdentityRenames(us: set<User>, r: nat -> nat)
    requires forall i :: r(i) == i
    ensures RenamedAll(us, r) == us
  {
    assert forall u :: Renamed(u, r) == u;
  }

  // ---- Users that nobody can tell apart ----

  ghost function Swap(i: nat, j: nat): nat -> nat {
    k => if k == i then j else if k == j then i else k
  }

  /** No account, session, owner or member is one of them, and no other group has their requests. */
  predicate OnlyRequests(s: State, id: string, us: set<User>) {
    && (forall name :: name in s.users ==> s.users[name] !in us)
    && (forall o :: o in s.sessions ==> s.sessions[o] !in us)
    && (forall id' :: id' in s.groups ==> s.groups[id'].owner !in us && s.groups[id'].users !! us)
    && (forall id' :: id' in s.groups && id' != id ==> s.groups[id'].requests !! us)
  }

  lemma OthersKeepNumbers(users: seq<User>, u: User, v: User, w: User)
    requires Knows(users, u) && Knows(users, v) && Knows(users, w) && w !in {u, v}
    ensures Renamed(w, Swap(u.id, v.id)) == w
  {
  }

  lemma SwapRenames(u: User, v: User)
    requires u.name == v.name && u.password == v.password
    ensures Injective(Swap(u.id, v.id))
    ensures Renamed(v, Swap(u.id, v.id)) == u && Renamed(u, Swap(u.id, v.id)) == v
  {
  }

  lemma OthersKeepSet(users: seq<User>, u: User, v: User, us: set<User>)
    requires Knows(users, u) && Knows(users, v) && (forall w :: w in us ==> Knows(users, w)) && us !! {u, v}
    ensures RenamedAll(us, Swap(u.id, v.id)) == us
  {
    hide Swap, Renamed, Knows;
    forall w | w in us ensures Renamed(w, Swap(u.id, v.id)) == w {
      OthersKeepNumbers(users, u, v, w);
    }
  }

  lemma LookalikeGroups(users: seq<User>, g: GroupState, u: User, v: User)
    requires KnowsGroup(users, g) && u in g.requests && v in g.requests && u != v
    requires u.name == v.name && u.password == v.password
    requires g.owner !in {u, v} && g.users !! {u, v}
    ensures SameRenamedGroup(Admit(g, u), Admit(g, v), Swap(u.id, v.id))
  {
    hide Swap, Renamed, Injective;
    var r := Swap(u.id, v.id);
    SwapRenames(u, v);
    OthersKeepNumbers(users, u, v, g.owner);
    OthersKeepSet(users, u, v, g.users);
    OthersKeepSet(users, u, v, g.requests - {u, v});
    assert RenamedAll(g.users + {v}, r) == RenamedAll(g.users, r) + {Renamed(v, r)};
    assert g.requests - {v} == (g.requests - {u, v}) + {u};
    assert RenamedAll(g.requests - {v}, r) == RenamedAll(g.requests - {u, v}, r) + {Renamed(u, r)};
  }

  lemma OtherGroupsKeep(users: seq<User>, g: GroupState, u: User, v: User)
    requires KnowsGroup(users, g) && Knows(users, u) && Knows(users, v)
    requires g.owner !in {u, v} && g.users !! {u, v} && g.requests !! {u, v}
    ensures SameRenamedGroup(g, g, Swap(u.id, v.id))
  {
    hide Swap, Renamed, RenamedAll;
    OthersKeepNumbers(users, u, v, g.owner);
    OthersKeepSet(users, u, v, g.users);
    OthersKeepSet(users, u, v, g.requests);
  }

  lemma OtherTablesKeep<K(!new)>(users: seq<User>, m: map<K, User>, u: User, v: User)
    requires Knows(users, u) && Knows(users, v)
    requires forall k :: k in m ==> Knows(users, m[k]) && m[k] !in {u, v}
    ensures SameTable(m, m, Swap(u.id, v.id))
  {
    hide Swap, Renamed, Knows;
    forall k | k in m ensures m[k] == Renamed(m[k], Swap(u.id, v.id)) {
      OthersKeepNumbers(users, u, v, m[k]);
    }
  }

  /** An accept between two requesters of one name and one password who are nothing else any more makes no difference
      but to their numbers, whichever of them it takes in. */
  lemma LookalikesAreAlike(run: seq<Event>, id: string, u: User, v: User)
    requires id in After(run).groups && OnlyRequests(After(run), id, {u, v})
    requires u in After(run).groups[id].requests && v in After(run).groups[id].requests && u != v
    requires u.name == v.name && u.password == v.password
    ensures var (s, g) := (After(run), After(run).groups[id]);
      Alike(WithGroup(s, id, Admit(g, u)), WithGroup(s, id, Admit(g, v)))
  {
    hide After, Swap, Injective, SameTable, SameRenamedGroup, Knows, Creations;
    RunKnowsItsUsers(run);
    var s, users, r := After(run), Creations(run), Swap(u.id, v.id);
    assert KnowsGroup(users, s.groups[id]);
    SwapRenames(u, v);
    OtherTablesKeep(users, s.users, u, v);
    OtherTablesKeep(users, s.sessions, u, v);
    LookalikeGroups(users, s.groups[id], u, v);
    forall id' | id' in s.groups && id' != id ensures SameRenamedGroup(s.groups[id'], s.groups[id'], r) {
      OtherGroupsKeep(users, s.groups[id'], u, v);
    }
    assert AgreeRenamed(WithGroup(s, id, Admit(s.groups[id], u)), WithGroup(s, id, Admit(s.groups[id], v)), r);
  }
}
