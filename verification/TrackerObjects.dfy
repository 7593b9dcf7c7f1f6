/** The tracker's mutable objects: group.hpp, userdb.cpp, groupdb.cpp, and the static state of process_request.cpp. */
module TrackerObjects {
  import opened Streams
  import opened Codec
  import opened TrackerSpec

  /** A File object of a group; only its set of seeders changes. */
  class File {
    const info: FileInfo
    const groupId: string
    var seeders: multiset<Endpoint>

    constructor (info: FileInfo, groupId: string)
      ensures this.info == info && this.groupId == groupId && seeders == multiset{}
    {
      this.info, this.groupId := info, groupId;
      seeders := multiset{};
    }

    ghost function Stored(): StoredFile
      reads this`seeders
    {
      StoredFile(info, seeders)
    }
  }

  class Group {
    const groupId: string
    const owner: User
    var users: set<User>
    var requests: set<User>
    var files: set<File>
    ghost var byHash: map<string, File>

    /** The group's objects stand for `g`. In particular each file carries the group's id, and no two files
        have one hash. */
    ghost predicate Is(g: GroupState)
      reads this, files`seeders
    {
      && owner == g.owner && users == g.users && requests == g.requests
      && HoldsFiles(g.files)
    }

    ghost predicate HoldsFiles(table: map<string, StoredFile>)
      reads this`files, this`byHash, files`seeders
    {
      && byHash.Keys == table.Keys
      && (forall f :: f in files ==> f.groupId == groupId && f.info.hash in byHash && byHash[f.info.hash] == f)
      && (forall h :: h in byHash ==> byHash[h] in files && byHash[h].info.hash == h && table[h] == byHash[h].Stored())
    }

    constructor (groupId: string, owner: User)
      ensures this.groupId == groupId && this.owner == owner && files == {}
      ensures Is(GroupState(owner, {}, {}, map[]))
    {
      this.groupId, this.owner := groupId, owner;
      users, requests, files, byHash := {}, {}, {}, map[];
    }

    function Infos(): set<FileInfo>
      reads this
    {
      set f | f in files :: f.info
    }

    lemma InfosOf(g: GroupState)
      requires Is(g)
      ensures Infos() == TrackerSpec.Infos(g)
    {
      forall f | f in files ensures f.info in TrackerSpec.Infos(g) {
        assert g.files[f.info.hash].info == f.info;
      }
    }

    method AddUser(user: User) returns (added: bool)
      modifies this`users
      ensures users == old(users) + {user} && added == (user !in old(users))
    {
      if user in users {
        return false;
      }
      users := users + {user};
      added := true;
    }

    predicate IsMember(user: User)
      reads this
    {
      user == owner || user in users
    }

    method RemoveUser(user: User) returns (removed: bool)
      modifies this`users
      ensures users == old(users) - {user} && removed == (user in old(users))
    {
      removed := user in users;
      users := users - {user};
    }

    method AddJoinRequest(user: User) returns (added: bool)
      modifies this`requests
      ensures requests == old(requests) + {user} && added == (user !in old(requests))
    {
      if user in requests {
        return false;
      }
      requests := requests + {user};
      added := true;
    }

    method RemoveJoinRequest(user: User) returns (removed: bool)
      modifies this`requests
      ensures requests == old(requests) - {user} && removed == (user in old(requests))
    {
      if user !in requests {
        return false;
      }
      requests := requests - {user};
      removed := true;
    }

    method AddFile(file: File) returns (added: bool)
      modifies this`files
      ensures files == old(files) + {file} && added == (file !in old(files))
    {
      if file in files {
        return false;
      }
      files := files + {file};
      added := true;
    }

    /** The loop of an accept: the first requester of that name becomes a member. */
    method Accept(username: string, ghost g: GroupState) returns (found: bool, ghost pick: User)
      requires Is(g)
      modifies this`users, this`requests
      ensures found == (Requesters(g, username) != {})
      ensures Is(if found then Admit(g, Chosen(Requesters(g, username), pick)) else g)
    {
      var left := requests;
      pick := owner;
      while left != {}
        invariant left <= requests && users == old(users) && requests == old(requests)
        invariant forall u :: u in requests - left ==> u.name != username
        decreases |left|
      {
        var request :| request in left;
        left := left - {request};
        if request.name == username {
          pick := request;
          assert pick in Requesters(g, username);
          var added := AddUser(request);
          var removed := RemoveJoinRequest(request);
          return true, pick;
        }
      }
      assert Requesters(g, username) == {};
      found := false;
    }

    /** The loop of an upload: the file of the group that equals a new one with this hash, if any. */
    method FindByHash(hash: string, ghost g: GroupState) returns (file: File?)
      requires Is(g)
      ensures file != null ==> file in files && file.info.hash == hash
      ensures file == null <==> hash !in g.files
    {
      var left := files;
      file := null;
      while left != {}
        invariant left <= files && forall f :: f in files - left ==> f.info.hash != hash
        decreases |left|
      {
        var f :| f in left;
        left := left - {f};
        if f.info.hash == hash && f.groupId == groupId {
          return f;
        }
      }
    }

    /** The loop of a download: some file of that name. */
    method FindByName(name: string, ghost g: GroupState) returns (file: File?)
      requires Is(g)
      ensures file != null ==> file in files && file.info.hash in Named(g, name)
      ensures file == null <==> Named(g, name) == {}
    {
      var left := files;
      file := null;
      while left != {}
        invariant left <= files && forall f :: f in files - left ==> f.info.name != name
        decreases |left|
      {
        var f :| f in left;
        left := left - {f};
        if f.info.name == name {
          assert f.info.hash in Named(g, name);
          return f;
        }
      }
      assert Named(g, name) == {};
    }

    method AddSeederTo(file: File, endpoint: Endpoint, ghost g: GroupState)
      requires Is(g) && file in files
      modifies file`seeders
      ensures Is(AddSeeder(g, file.info.hash, endpoint))
    {
      file.seeders := file.seeders + multiset{endpoint};
    }

    method Register(file: File, ghost endpoint: Endpoint, ghost g: GroupState)
      requires Is(g) && file.groupId == groupId && file.info.hash !in g.files
      requires file.seeders == multiset{endpoint}
      modifies this`files, this`byHash
      ensures files == old(files) + {file} && Is(TrackerSpec.AddFile(g, file.info, endpoint))
    {
      var added := AddFile(file);
      byHash := byHash[file.info.hash := file];
    }

    /** The effect of a described upload on the group's files. */
    method Upload(endpoint: Endpoint, info: FileInfo, ghost g: GroupState) returns (added: bool)
      requires Is(g)
      modifies this`files, this`byHash, files`seeders
      ensures fresh(files - old(files))
      ensures added == (info.hash !in g.files)
      ensures Is(if added then TrackerSpec.AddFile(g, info, endpoint) else AddSeeder(g, info.hash, endpoint))
    {
      var file := new File(info, groupId);
      file.seeders := file.seeders + multiset{endpoint};
      var known := FindByHash(info.hash, g);
      added := known == null;
      if known != null {
        AddSeederTo(known, endpoint, g);
      } else {
        Register(file, endpoint, g);
      }
    }
  }

  class UserDB {
    var users: map<string, User>
    /** How many User objects were allocated; it numbers the next one. */
    var created: nat

    constructor ()
      ensures users == map[] && created == 0
    {
      users, created := map[], 0;
    }

    method CreateUser(username: string, password: string) returns (done: bool)
      modifies this
      ensures done == (username !in old(users))
      ensures users == if done then old(users)[username := User(old(created), username, password)] else old(users)
      ensures created == if done then old(created) + 1 else old(created)
    {
      if username in users {
        return false;
      }
      users := users[username := User(created, username, password)];
      created := created + 1;
      done := true;
    }

    method DeleteUser(username: string) returns (done: bool)
      modifies this`users
      ensures done == (username in old(users))
      ensures users == if done then old(users) - {username} else old(users)
    {
      if username !in users {
        return false;
      }
      users := users - {username};
      done := true;
    }

    function GetUser(username: string): Option<User>
      reads this
    {
      if username in users then Some(users[username]) else None
    }
  }

  class GroupDB {
    var groups: map<string, Group>
    ghost var table: map<string, GroupState>

    /** The files of all groups. */
    ghost var allFiles: set<File>

    /** Every group is filed under its id, so distinct entries are distinct objects with distinct files. */
    ghost predicate Valid()
      reads this, groups.Values, allFiles`seeders
    {
      && table.Keys == groups.Keys
      && (forall id :: id in groups ==> groups[id].groupId == id && groups[id].files <= allFiles)
      && (forall id :: id in groups ==> groups[id].Is(table[id]))
    }

    constructor ()
      ensures Valid() && groups == map[] && table == map[] && allFiles == {}
    {
      groups, table, allFiles := map[], map[], {};
    }

    method CreateGroup(groupId: string, owner: User) returns (done: bool)
      requires Valid()
      modifies this
      ensures allFiles == old(allFiles)
      ensures Valid() && done == (groupId !in old(table))
      ensures table == if done then old(table)[groupId := GroupState(owner, {}, {}, map[])] else old(table)
      ensures fresh(groups.Values - old(groups.Values))
    {
      if groupId in groups {
        return false;
      }
      var group := new Group(groupId, owner);
      groups := groups[groupId := group];
      table := table[groupId := GroupState(owner, {}, {}, map[])];
      done := true;
    }

    method GetGroup(groupId: string) returns (group: Group?)
      ensures group == if groupId in groups then groups[groupId] else null
    {
      if groupId !in groups {
        return null;
      }
      group := groups[groupId];
    }

    /** Different entries share neither the group object nor a file. */
    lemma OthersApart(groupId: string)
      requires Valid() && groupId in groups
      ensures forall id :: id in groups && id != groupId ==>
        groups[id] != groups[groupId] && groups[id].files !! groups[groupId].files
    {
      forall id | id in groups && id != groupId ensures groups[id].files !! groups[groupId].files {
        assert groups[id].Is(table[id]) && groups[groupId].Is(table[groupId]);
      }
    }

    /** Any change that one group makes to itself and its files can be recorded in the table. */
    ghost method Record(groupId: string, g: GroupState)
      requires groupId in groups && table.Keys == groups.Keys
      requires forall id :: id in groups ==> groups[id].groupId == id
      requires forall id :: id in groups && id != groupId ==> groups[id].files <= allFiles && groups[id].Is(table[id])
      requires groups[groupId].Is(g)
      modifies this`table, this`allFiles
      ensures Valid() && table == old(table)[groupId := g]
      ensures allFiles == old(allFiles) + groups[groupId].files
    {
      allFiles := allFiles + groups[groupId].files;
      table := table[groupId := g];
    }

    // The changes to one group, seen in the table of all groups.

    method RecordJoin(groupId: string, user: User)
      requires Valid() && groupId in groups
      modifies this`table, this`allFiles, groups.Values
      ensures allFiles == old(allFiles)
      ensures Valid()
      ensures var g := old(table)[groupId];
        table == old(table)[groupId := g.(requests := g.requests + {user})]
    {
      ghost var g := table[groupId];
      var added := groups[groupId].AddJoinRequest(user);
      Record(groupId, g.(requests := g.requests + {user}));
    }

    method RecordLeave(groupId: string, user: User) returns (removed: bool)
      requires Valid() && groupId in groups
      modifies this`table, this`allFiles, groups.Values
      ensures allFiles == old(allFiles)
      ensures Valid() && removed == (user in old(table)[groupId].users)
      ensures var g := old(table)[groupId];
        table == if removed then old(table)[groupId := g.(users := g.users - {user})] else old(table)
    {
      OthersApart(groupId);
      assert groups[groupId].Is(table[groupId]) && groups[groupId].users == table[groupId].users;
      hide Group.Is;
      ghost var g := table[groupId];
      removed := groups[groupId].RemoveUser(user);
      if removed {
        Record(groupId, g.(users := g.users - {user}));
      }
    }

    method RecordAccept(groupId: string, username: string) returns (found: bool, ghost pick: User)
      requires Valid() && groupId in groups
      modifies this`table, this`allFiles, groups.Values
      ensures allFiles == old(allFiles)
      ensures Valid() && found == (Requesters(old(table)[groupId], username) != {})
      ensures var g := old(table)[groupId];
        table ==
          if found then old(table)[groupId := Admit(g, Chosen(Requesters(g, username), pick))] else old(table)
    {
      hide Admit, Requesters;
      OthersApart(groupId);
      hide Group.Is;
      ghost var g := table[groupId];
      found, pick := groups[groupId].Accept(username, g);
      if found {
        Record(groupId, Admit(g, Chosen(Requesters(g, username), pick)));
      }
    }

    method RecordUpload(groupId: string, endpoint: Endpoint, info: FileInfo) returns (added: bool)
      requires Valid() && groupId in groups
      modifies this`table, this`allFiles, groups.Values, allFiles`seeders
      ensures fresh(allFiles - old(allFiles))
      ensures Valid() && added == (info.hash !in old(table)[groupId].files)
      ensures var g := old(table)[groupId];
        table == old(table)[groupId :=
          if added then AddFile(g, info, endpoint) else AddSeeder(g, info.hash, endpoint)]
    {
      ghost var g := table[groupId];
      var group := groups[groupId];
      OthersApart(groupId);
      hide Group.Is, AddFile, AddSeeder;
      added := group.Upload(endpoint, info, g);
      Record(groupId, if added then AddFile(g, info, endpoint) else AddSeeder(g, info.hash, endpoint));
    }
  }
}
