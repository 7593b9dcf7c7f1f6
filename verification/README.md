# P2P-File-Share in Dafny

A model of the trackers and clients of P2P-File-Share, and proofs about it. `dafny verify dfyconfig.toml`
checks everything.

The system has two halves and a text protocol between them.

* A **tracker** keeps users, sessions, groups and file descriptions, and a log of successful requests. It mirrors
  each success of a client to the other trackers; a tracker that joins replays another one's log.
* A **client** cuts files into blocks, announces their hashes, asks peers for missing pieces in any order, checks
  each piece, and writes it at its place. It serves the pieces of the files that it announced.
* Everything travels as **text** that is printed, read token by token, stored, printed again and read again.

What is proved, hardest first:

* A tracker's log, replayed on an empty tracker, leads to the same state up to the seeders of files, in whatever
  order hash sets are iterated, at every point of a run **if and only if** the run is replayable
  (`Replay.ReplayFaithfulIff`): no accept had two pending requesters of one name to choose from, no upload stored a
  description whose text ends before its size, and every success whose reply could not be sent was a download or a
  join by a user already pending. Then every entry succeeds again, and each replayed file has exactly one seeder: the
  first that was announced. The seeders are the same too **if and only if** nobody ever uploaded a file that its group
  had (`Seeders.ReplayEqualIff`). If no username was ever created twice, no accept is ambiguous.
* A tracker behind a lossless, ordered stream of mirrors always holds a prefix of the log of the tracker in front,
  and agrees with it whenever nothing is on the way, also when it joins in between; for this the requests must be
  replayable, and that condition is exact (`Network.TrackersAgreeIff`). Losing the mirror of the next success breaks
  the agreement **if and only if** that success is neither a download nor a repeated join (`Network.LostMirrorIff`).
* A third tracker that joins from one that itself joined has exactly the accounts, sessions, groups, members, requesters
  and files that stem from users created there since (`ThirdTracker.ThirdTrackerHasNewcomers`). So it is like the
  second, up to seeders and the numbering of users, **if and only if** nothing that was taken over is left there: no
  account, session, group, member or requester, and no file first uploaded by a user taken over
  (`ThirdTracker.ThirdTrackerIff`).
* Exactly which histories make a user a member or a pending requester (`Membership.MembershipIsHistory`), and which
  give an account, a session or the ownership of a group (module `Histories`).
* Only a user who is logged in and founded a group, or was admitted to it and has not left since, can announce, fetch or
  list its files, and gets them completely; every seeder of every file goes back to such a user
  (`FileRights.SeedersHadRights`, `FileRights.FilesReachMembersOnly`).
* Whatever a user enters behind a command, the tracker reads as exactly that request of this client, makes that step,
  and answers it (`Commands.CommandTakesEffect`, `TrackerServer.Server.ProcessData`).
* Whatever else is queued for other paths, dead or bogus descriptions included, and also if the same download is queued
  twice, its output is at every moment the image of the pieces downloaded. A complete output equals its source byte for
  byte **if and only if** every repeated block is all zeros and has a first occurrence of some block behind it
  (`Reconstruction.CompleteOutputIff`); with distinct blocks it always does.
* The worker writes each piece once per queued file and calls back once per completed file that has a piece. Each pass
  that serves a file takes exactly one piece off it, and nothing else does, whatever becomes of the rest of the queue;
  so it is done with a file after exactly as many such passes as the file has distinct pieces
  (`Downloads.WorkerProgress`).
* From an `upload_file` command over the tracker to a `download_file` command of another client: what is queued is
  what was described, the uploader is among the peers asked, and its answers let every visit succeed, whatever it
  shares afterwards (`EndToEnd.UploadedFileIsSeeded`). The output ends up as the uploaded content after as many passes
  as it has distinct pieces, whatever else the downloader has queued for other paths (`EndToEnd.UploadedFileArrives`).
* The event loop's table matches the descriptors that it watches, and each client's callbacks come in order, as long
  as no data callback both disconnects its client and throws. That condition is exact for every single step, and the
  data callbacks of both programs meet it. In every round each ready client gets its own input and nobody else's
  (`ClientService.RoundTreatsEveryClient`).

Where the source updates objects in place (trackers, groups, tables, part files, the download manager, the event
loop), a class with those fields is proved against the functions that the theorems are about. The hash function of
the standard library and the digest behind SHA-1 are parameters of every statement, as are the orders in which hash
sets are iterated (`Pick`, `Visit`, or an order of seeders), what unset variables hold, whether replies can be sent,
what peers answer, and what select and accept return.

## Findings

* README.MD:28-31 says that every request is saved and that a new tracker catches up from the log. Only successes
  are saved, and adding a seeder to a known file counts as a failure (src/tracker/process_request.cpp:325-329):
  seeders after the first are neither logged nor mirrored (`Seeders.ReplayEqualIff`; `Scenarios.ReuploadIsNotReplayed`
  has such a run).
* The reply is sent before the success is recorded and mirrored (src/tracker/process_request.cpp:419-422,
  src/tracker/tracker.cpp:69-74). If sending throws, the event loop goes on, the state has changed, and neither the
  log nor any other tracker ever learns of it (`Scenarios.LostReplyIsReachable`).
* An entry that a tracker replays when it joins is not put on its own log. A third tracker that joins from it gets
  only the later part, and of that only what does not rest on a user taken over (`ThirdTracker.ThirdTrackerIff`,
  `ThirdTracker.ThirdTrackerMissesAccounts`).
* After a username is deleted and created again, two users of one name can ask to join the same group; which one an
  accept takes in depends on the hash order of each tracker (`Agreement.AmbiguousAcceptDiverges`,
  `Scenarios.AmbiguityIsReachable`).
* The size of a parsed description is declared without a value (src/models/fileinfo.hpp:54). A text that ends before
  it stores whatever the variable held, and another tracker another value (`Agreement.UnsetSizeDiverges`).
* Pieces are kept as a set of hashes and written at their first index, so later copies of a block are never written.
* A download that is entered among the files to serve is never marked as it progresses, and it keeps a later upload
  of the same group and name from being entered: such a client answers "0 Piece not found" for good
  (`Serving.SeederServesIff`). The first download of a client is not entered at all (`EndToEnd.ClientStaysSound`).
* The reply about a file with an empty name is misread by the downloader (`Delivery.ReplyTravelsIff`); an upload line
  with nothing but white space behind its endpoint stores one (`Scenarios.NamelessFileIsReachable`).
* The status of a peer's reply is declared without a value (src/client/downloadmanager.cpp:25). After a blank reply it
  holds whatever it held; if that is 1 and the reply is shorter than two characters, the worker throws
  (`Downloads.OnlyBlankRepliesVary`).
* The test of enqueue_download for a repeated download compares the addresses of two descriptions
  (src/client/downloadmanager.cpp:109-115), so one path can be queued twice (`EndToEnd.QueuedTwice`), exactly until
  something is written there (`EndToEnd.QueuedPathsDistinctIff`).
* Two endpoints whose ids collide are one peer: the file of the second is credited to the first
  (`Peers.HoldersAfterReplyIff`).
* A data callback that disconnects its client and then throws leaves a stale descriptor in the watched set, or a
  dead client in the list (`TcpServer.DataSoundIff`).

## Model

| member | source | states |
|---|---|---|
| Streams.DecimalRoundTrip | src/models/fileinfo.hpp:41 | a printed number has the value that was printed |
| Streams.ReadWordBack | src/models/fileinfo.hpp:60-61 | after any white space, extraction gives back exactly the printed word and leaves exactly the text behind it |
| Streams.ReadNumberBack | src/models/file.hpp:38-40 | the same for numbers, up to the first character that is not a digit |
| Streams.LargeNumbers | src/models/fileinfo.hpp:54-60 | a number that its type cannot hold saturates and fails the stream |
| Streams.NegativeNumbers | src/models/fileinfo.hpp:54-60 | behind a minus sign an unsigned number wraps around and a signed one is negative |
| Streams.PlusSign | src/models/fileinfo.hpp:54-60 | a plus sign in front of a number changes nothing |
| Codec.EndpointRoundTrip | src/models/endpoint.hpp:19-32 | an endpoint whose ip has no colon or white space parses back from its text |
| Codec.EndpointErrors | src/models/endpoint.hpp:19-27 | no colon or no number behind it is an invalid argument, a number too large for an int is out of range, and any other is cut to sixteen bits |
| Codec.FileInfoToString | src/models/fileinfo.hpp:38-49 | the loop prints the text that the round trips speak of |
| Codec.PiecesFromStream | src/models/fileinfo.hpp:57-65 | the last loop collects all words up to the end and their concatenation |
| Codec.FileInfoFromString | src/models/fileinfo.hpp:51-67 | the parser computes the function that the round trips speak of, on any text at all, with whatever its size variable held if the text ends before the size |
| Codec.ParseIsFilled | src/models/fileinfo.hpp:54-60 | only the size can depend on what the variable held, and only if the text ends before it |
| Codec.FileInfoRoundTrip | src/models/fileinfo.hpp:38-67 | a description with a word as name and words as pieces parses back with name, size, pieces and concatenated hash, whatever white space surrounds it |
| Codec.SeedersRoundTrip | src/models/file.hpp:27-47 | printed seeders parse back as the same multiset, with the rest of the text unread |
| Codec.FileToString | src/models/file.hpp:23-34 | the text is that of the seeders in some order of their set, each as often as it is there |
| Codec.SeedersFromStream | src/models/file.hpp:39-47 | the loop reads as many seeders as announced, or throws as the endpoint parser does |
| Codec.FileFromString | src/models/file.hpp:36-54 | the parser computes the function that the round trips speak of, its exceptions included |
| Codec.FileRoundTrip | src/models/file.hpp:23-54 | a file in a named group parses back with its seeder multiset, group and description, in whatever order the seeders were printed |
| Requests.CommandWordsName | src/tracker/parse_request.cpp:14-77 | every command word is one token and names exactly its own request |
| Requests.MarkersAreNotRequests | src/tracker/tracker.cpp:107 | the two texts that end a sync can never be logged requests |
| Requests.HeaderRoundTrip | src/tracker/parse_request.cpp:7-83 | a line of id, command and rest is decoded to that id, that command, and arguments read from the rest |
| Requests.UploadArgsRoundTrip | src/tracker/process_request.cpp:309-312 | the upload handler reads back the endpoint and description that were printed |
| Requests.BadUploadArgs | src/tracker/process_request.cpp:307-312 | arguments that end right behind the endpoint, or with a port that no int holds, throw out of the handler; an endpoint that is none is refused |
| Requests.UploadLineRoundTrip | src/client/process_input.cpp:15-31 | the tracker decodes the client's upload line to the client's id, group, endpoint and description |
| Requests.DownloadLineRoundTrip | src/client/process_input.cpp:39-50 | the tracker decodes the client's download line to its id, group and file name |
| Requests.SyncLineRoundTrip | src/tracker/tracker.cpp:101-102 | the line of a joining tracker is decoded to a sync from that tracker |
| Agreement.FailureIsInvisible | src/tracker/process_request.cpp:22-373 | every request that does not succeed leaves the tracker as it was, but for exactly one added seeder when a member uploads a known file |
| Agreement.StepRespectsAgreement | src/tracker/process_request.cpp:22-373 | on trackers that differ only in seeders, any request succeeds on both or on neither and leaves them differing only in seeders, for any hash orders, unless it is an ambiguous accept or stores a description without a size |
| Agreement.AmbiguousAcceptDiverges | src/tracker/process_request.cpp:224-237 | an ambiguous accept succeeds on both trackers but some hash order of the second makes them disagree: the exception is exact |
| Agreement.UnsetSizeDiverges | src/models/fileinfo.hpp:54-60 | so is the other one: some leftover value of the size makes two trackers disagree after the same upload |
| Agreement.SuccessChangesIff | src/tracker/process_request.cpp:22-373 | a success leaves something else than seeders different exactly if it is neither a download nor a join by a user already pending; those two change nothing |
| TrackerInvariants.UserRequestsKeepGroups | src/tracker/process_request.cpp:22-126 | no user request, delete_user included, changes any group |
| TrackerInvariants.StepKeeps | src/tracker/process_request.cpp:149-335 | every request keeps requesters, members and owner apart, files filed under their hash, owners and descriptions as they are, and no group, file or seeder goes away |
| Runs.RunIsSound | src/models/group.hpp:24-63 | in every reachable state of a tracker, whatever messages arrive in whatever order: the owner is neither member nor requester, no requester is a member, and no two files of a group have one hash |
| Runs.RunGrows | src/models/group.hpp:8-16 | over any run, groups, their owners, their files and the seeders of those never go away or change |
| Runs.OwnersStayMembers | src/models/group.hpp:34-38 | the owner of a group at any time stays its owner and a member for good, and nobody is pending and a member at once |
| Runs.LoggedLinesAreRequests | src/tracker/process_request.cpp:396-410 | every logged line is a well-formed user, group or file request, so a replay, which has no connection, never enters the branch that uses one |
| Runs.RunKnowsItsUsers | src/tracker/userdb.cpp:3-11 | every user in a session, group or table is one that a successful create of the run allocated |
| Runs.NamesIdentifyUsers | src/tracker/userdb.cpp:3-22 | if no username was created twice, users with one name are one user, deletions notwithstanding |
| Replay.ReplayIsFaithful | src/tracker/tracker.cpp:58-81 | for a replayable run, re-executing the log makes every entry succeed again and gives the same users, sessions, groups, owners, members, requests and descriptions, whatever either side meets on the way |
| Replay.FreshNamesAreUnambiguous | src/tracker/process_request.cpp:224-237 | without a username created twice, no accept of a run is ambiguous |
| Replay.UnreplayableBreaksReplay | src/tracker/process_request.cpp:419-422 | at the first event that is not replayable (ambiguous accept, missing size, or a change whose reply was lost), some replay of the log ends in a different state |
| Replay.ReplayFaithfulIff | src/tracker/tracker.cpp:58-81 | all replays of the log agree with the tracker, at all points of a run, if and only if the run is replayable; and then every replayed entry succeeds |
| Seeders.StepSeeders | src/tracker/process_request.cpp:313-335 | a request changes the seeders of a file exactly when a member describes a file of that hash, and then by that endpoint |
| Seeders.SeedersAreAnnouncements | src/tracker/process_request.cpp:313-335 | over every run the seeders of a file are the endpoints announced for it, with multiplicity, and the first one stays |
| Seeders.FirstAnnouncementIsReplayed | src/tracker/process_request.cpp:325-335 | the first announcement of a file in a run is also the first in any replay of its log |
| Seeders.ReplayKeepsFirstSeeder | src/tracker/process_request.cpp:325-335 | each file of a replay has exactly one seeder: its first uploader, who is among the live tracker's seeders |
| Seeders.OneSeederWithoutReuploads | src/tracker/process_request.cpp:325-335 | as long as nobody uploads a file that its group has, each file has exactly the seeder announced first |
| Seeders.ReuploadStays | src/tracker/process_request.cpp:325-329 | once a known file was uploaded again, it has at least two seeders for good |
| Seeders.ReplayEqualIff | src/tracker/process_request.cpp:325-329 | a replay of a replayable run gives the whole state, seeders included, if and only if nobody ever uploaded a file that its group had |
| FileRights.StrangersGetNothing | src/tracker/process_request.cpp:267-292 | without a session, a group, or ownership or membership of its user in it, an upload, download or listing changes nothing, succeeds never, and is told which of the three is missing |
| FileRights.MembersUpload | src/tracker/process_request.cpp:307-336 | with them a described upload of a new hash is stored with that endpoint as its only seeder and succeeds, one of a known hash adds exactly that endpoint, and everything else stays |
| FileRights.BadUploadsChangeNothing | src/tracker/process_request.cpp:307-312 | with them an upload that cannot be parsed changes nothing and is refused or throws |
| FileRights.MembersDownload | src/tracker/process_request.cpp:337-360 | with them a download gives a file of that name, all of it, exactly if the group has one, succeeds then, and changes nothing |
| FileRights.MembersList | src/tracker/process_request.cpp:296-306 | with them a listing has exactly the descriptions of the group's files |
| FileRights.EntitledIff | src/tracker/process_request.cpp:267-292 | over every run: entitled to the files of a group from some origin is exactly who logged in there and not out since, and founded the group or was admitted and has not left since |
| FileRights.SeedersAreOffered | src/tracker/process_request.cpp:307-336 | over every run: an endpoint is a seeder of a file if and only if somebody entitled at that time uploaded that hash from it |
| FileRights.SeedersHadRights | src/tracker/process_request.cpp:267-336 | so behind every seeder is a user who was logged in and founder or standing member when announcing it |
| FileRights.FilesReachMembersOnly | src/tracker/process_request.cpp:267-360 | over every run: seeders and descriptions are given only to a user who is logged in and founder or standing member |
| Histories.BeginningsSucceed | src/tracker/process_request.cpp:41-42 | whatever makes an account, a session or a group is a request that succeeds |
| Histories.AccountsAreHistory | src/tracker/process_request.cpp:27-64 | over every run: an account exists if and only if it was created with that name and password and the name not deleted since |
| Histories.SessionsAreHistory | src/tracker/process_request.cpp:76-117 | over every run: a session exists if and only if its user logged in there with its own password while nobody was logged in, and nobody logged out there since; deleting the user does not end it |
| Histories.GroupsAreHistory | src/tracker/process_request.cpp:149-161 | over every run: a user owns a group if and only if a session of that user created it when there was none of that id |
| Membership.MovesSucceed | src/tracker/process_request.cpp:162-248 | the joins, accepts and leaves of the history theorems are requests that succeed |
| Membership.StepMoves | src/tracker/process_request.cpp:162-248 | one request makes a member exactly of the admitted user, a requester exactly of the joining one, and takes out exactly the leaving one |
| Membership.MembershipIsHistory | src/tracker/process_request.cpp:162-248 | over every run: member if and only if admitted and not left since; pending if and only if joined and not admitted since |
| Membership.MembershipProvenance | src/tracker/process_request.cpp:162-248 | every member asked to join by its own session, was then accepted by name from a session of the owner, and has not left since |
| Replies.UserAnswers | src/tracker/process_request.cpp:27-117 | each answer to a create, delete, login or logout is given exactly in the case that it names |
| Replies.GroupAnswers | src/tracker/process_request.cpp:149-248 | the same for group requests: first the session, then the group, then the place of the user in it |
| Replies.ListingsAreComplete | src/tracker/process_request.cpp:65-148 | users and groups are listed completely to anybody, and nothing changes |
| Replies.NamesAreWords | src/tracker/process_request.cpp:27-39 | over every run all user names are single tokens, and group ids have no white space |
| Replies.UsersAreListed | src/tracker/process_request.cpp:65-75 | over every run: the tokens of the message are exactly the user names, each once, in whatever order the hash map has them |
| Replies.GroupsAreListed | src/tracker/process_request.cpp:131-148 | the same for group ids, but for an empty one |
| Replies.PendingAreListed | src/tracker/process_request.cpp:191-209 | the tokens of the message are the names of exactly the pending users |
| Replies.FilesAreListed | src/tracker/process_request.cpp:296-306 | every file with a name can be cut out of the message and parses back to its description |
| Replies.EmptyListing | src/tracker/process_request.cpp:296-306 | whoever is entitled reads that there is no file exactly if the group has none |
| Replies.DownloadAnswersAreRead | src/client/process_input.cpp:51-75 | the downloader reads "absent" exactly when it is entitled and there is no such file, and nothing when it is not entitled |
| Network.ProcessIs | src/tracker/tracker.cpp:58-81 | every message makes its step; it is recorded exactly if that succeeds and, for a client's message, the reply goes out; a client's recorded line, and nothing else, goes on, marked as a mirror |
| Network.MirrorsReachTheOthers | src/tracker/tracker.cpp:31-56 | one message to each tracker that is up and is not this one, none to itself, never more than there are others |
| Network.OthersBound | src/tracker/tracker.cpp:33-38 | at most one entry of the list less than all counts as another tracker, if this one is on it |
| Network.MirroringDoesNotLoop | src/tracker/tracker.cpp:31-74 | however n trackers of one list interleave and whoever is up, mirror() sends at most n - 1 messages per message from a client; a mirror is never mirrored, and mirrors what it got |
| Network.PartialReplaySucceeds | src/tracker/process_request.cpp:403-407 | replaying any beginning of a log makes all of its entries succeed |
| Network.ReachedIsConsistent | src/tracker/tracker.cpp:31-81 | in every reachable state of two trackers with replayable requests: the one in front is where its clients' run leads, lost replies included, the other has executed exactly the entries that it synced and those delivered since, and with the mirrors on the way these are the log in front |
| Network.TrackersAgree | src/tracker/tracker.cpp:31-127 | in every reachable state with replayable requests, synced entries, own log and mirrors on the way make up the log in front, and with nothing on the way the trackers agree up to seeders |
| Network.TrackersAgreeIff | src/tracker/tracker.cpp:31-127 | they agree in all such states, for all beginnings of what the clients send, if and only if that is replayable |
| Network.JoinedTracker | src/tracker/tracker.cpp:103-118 | a tracker that joined and then served any messages agrees with a replay of the synced log followed by its own later log; its own log holds only the later part |
| Network.SyncDeliversTheLog | src/tracker/process_request.cpp:401-409 | what the joining tracker takes out of the exchange is exactly the sender's log, in order |
| TellingApart.EndpointTextIsInjective | src/models/endpoint.hpp:29-32 | different endpoints have different texts |
| TellingApart.MirrorsIff | src/tracker/tracker.cpp:31-56 | mirrors go to exactly the listed trackers that are up and differ from this one, in order, if and only if none of those shares the hash of its text with this one; otherwise some get none, and this one never does |
| TellingApart.MirrorsReachAllOthers | src/tracker/tracker.cpp:31-56 | so they do if the hash tells the texts of the list apart |
| TellingApart.HoldersIff | src/client/process_input.cpp:62-68 | after a reply the holders are those before and all seeders if and only if no seeder shares the hash of its text with another endpoint of the table or the reply |
| TellingApart.HoldersAreSeeders | src/client/process_input.cpp:62-68 | so they are if the hash tells all these texts apart |
| Network.LostMirrorIff | src/tracker/tracker.cpp:39-54 | from any reachable state with nothing on the way, losing the mirror of the next success keeps the agreement if and only if that is a download or a join by a user already pending |
| Network.LostMirrorBreaksAgreement | src/tracker/tracker.cpp:39-54 | an instance: if the mirror of a first create_user is lost, the trackers disagree with nothing on the way |
| Renaming.LookalikesAreAlike | src/tracker/process_request.cpp:224-237 | two requesters of one name and one password who have no account, session, group or membership left: whichever of them an accept takes in, the states are equal up to the numbering of users |
| Newcomers.RequestersOfPart | src/tracker/process_request.cpp:224-237 | if one requester in the group has the name, then that one is found in the part of the newer users exactly if it is one of them |
| Newcomers.StepKeepsPart | src/tracker/process_request.cpp:22-373 | a request that succeeds on one tracker, executed on one that holds the accounts, sessions, groups, members, requesters and files of its newer users only, leaves the second with exactly those again, whether or not it succeeds there |
| Newcomers.PartIsAlikeIff | src/tracker/tracker.cpp:103-118 | some one-to-one renumbering of users makes such a part the whole tracker, seeders apart, if and only if nothing of the older users is left |
| ThirdTracker.OwnLogIsTheRest | src/tracker/tracker.cpp:112-113 | what a tracker recorded itself is the rest of what it executed with success, behind what it replayed to join |
| ThirdTracker.FirstUploadsAreFiles | src/tracker/process_request.cpp:330-335 | every file of every group has one first uploader, and nothing else has |
| ThirdTracker.ThirdTrackerHasNewcomers | src/tracker/tracker.cpp:103-118 | whatever the second tracker replayed, and at every point afterwards: a third one that replays its own record has exactly what stems from users created there since, as long as the second's own events are replayable |
| ThirdTracker.ThirdTrackerIff | src/tracker/tracker.cpp:103-118 | then the third is like the second, up to seeders and the numbering of users, if and only if no account, session, group, member or requester taken over is left and every file was first uploaded by a newer user |
| ThirdTracker.ThirdTrackerAccountsIff | src/tracker/tracker.cpp:112-113 | they have accounts of the same names if and only if every account taken over has been deleted |
| ThirdTracker.ThirdTrackerMissesAccounts | src/tracker/tracker.cpp:112-113 | every account that the second tracker took over and still has is unknown to the third |
| ThirdTracker.NothingToTakeOver | src/tracker/tracker.cpp:103-118 | a second tracker that found no user to take over hands everything on |
| Scenarios.AmbiguityIsReachable | src/tracker/process_request.cpp:224-237 | eleven commands from the empty tracker, with all replies going out, end in an ambiguous accept |
| Scenarios.LostReplyIsReachable | src/tracker/process_request.cpp:419-422 | one create whose reply is lost: no accept is ambiguous, the log is empty, and no replay agrees |
| Scenarios.ForgottenAccountIsNotMissed | src/tracker/tracker.cpp:103-118 | a third tracker misses the one account that the second took over, but is like it if the record also deletes that account |
| Scenarios.ReuploadAddsSeeder | src/tracker/process_request.cpp:325-329 | a file uploaded from two endpoints has both as seeders |
| Scenarios.ReuploadIsNotReplayed | src/tracker/process_request.cpp:325-329 | that run is replayable, and still no replay gives its state back |
| Scenarios.NamelessFileIsReachable | src/tracker/process_request.cpp:309-333 | an upload line with nothing but white space behind its endpoint stores a file without a name, and no replay is sure to store the same |
| TrackerObjects.Group.AddUser | src/models/group.hpp:24-32 | adds the user and says whether it was new |
| TrackerObjects.Group.RemoveUser | src/models/group.hpp:40-43 | removes the user and says whether it was there |
| TrackerObjects.Group.AddJoinRequest | src/models/group.hpp:45-53 | adds the request; a repeated one is refused |
| TrackerObjects.Group.RemoveJoinRequest | src/models/group.hpp:55-63 | removes the request and says whether it was there |
| TrackerObjects.Group.AddFile | src/models/group.hpp:65-73 | adds the file object unless that very object is there |
| TrackerObjects.Group.Accept | src/tracker/process_request.cpp:224-241 | the loop over the requests moves one requester of that name, if there is one, to the members and touches nothing else |
| TrackerObjects.Group.FindByHash | src/tracker/process_request.cpp:315-324 | the loop finds the file of that hash if and only if the group has it, and it is the only one |
| TrackerObjects.Group.FindByName | src/tracker/process_request.cpp:341-350 | the loop finds some file of that name if and only if the group has one |
| TrackerObjects.Group.Upload | src/tracker/process_request.cpp:313-335 | adds a seeder to the known file of that hash, or a new file with one seeder, leaving all other files as they are |
| TrackerObjects.UserDB.CreateUser | src/tracker/userdb.cpp:3-11 | refuses a taken name; otherwise a user object that no earlier create made |
| TrackerObjects.UserDB.DeleteUser | src/tracker/userdb.cpp:13-22 | takes out exactly that name |
| TrackerObjects.GroupDB.CreateGroup | src/tracker/groupdb.cpp:3-11 | refuses a taken id; otherwise an empty group of that owner, all other groups as they were |
| TrackerObjects.GroupDB.GetGroup | src/tracker/groupdb.cpp:24-32 | the group object filed under the id, if any |
| TrackerServer.Server.CreateUser | src/tracker/process_request.cpp:27-48 | users, sessions, groups and answer of the object after any create are those of the specification step, on which the run theorems rest |
| TrackerServer.Server.DeleteUser | src/tracker/process_request.cpp:49-64 | follows its specification step: the name goes, while the user's sessions, memberships and requests stay |
| TrackerServer.Server.Login | src/tracker/process_request.cpp:76-105 | follows its specification step: the first failing check decides the answer, and a session is never replaced |
| TrackerServer.Server.Logout | src/tracker/process_request.cpp:106-117 | follows its specification step: the session of that origin ends, if there was one, and no other |
| TrackerServer.Server.ProcessUserRequest | src/tracker/process_request.cpp:22-126 | every branch follows the step of the request decoded from the same text |
| TrackerServer.Server.CreateGroup | src/tracker/process_request.cpp:149-161 | follows its specification step: a new group belongs to the session's user, and a taken id is refused |
| TrackerServer.Server.JoinGroup | src/tracker/process_request.cpp:162-176 | follows its specification step: only a user who is not in the group becomes pending, and asking twice succeeds twice |
| TrackerServer.Server.LeaveGroup | src/tracker/process_request.cpp:177-190 | follows its specification step: only a member other than the owner leaves |
| TrackerServer.Server.ListRequests | src/tracker/process_request.cpp:191-209 | who gets a listing, that it lists exactly the pending users, and that nothing changes |
| TrackerServer.Server.AcceptRequest | src/tracker/process_request.cpp:210-248 | follows the step for the requester that the hash order meets first |
| TrackerServer.Server.ProcessGroupRequest | src/tracker/process_request.cpp:128-261 | every branch follows the step of the request decoded from the same text |
| TrackerServer.Server.GuardFileRequest | src/tracker/process_request.cpp:267-292 | the three refusals, in their order, and none exactly for an owner or member with a session |
| TrackerServer.ReadUpload | src/tracker/process_request.cpp:309-312 | both parses of any text, their exceptions, and the size that a short text leaves open |
| TrackerServer.Server.Upload | src/tracker/process_request.cpp:307-336 | follows the step for every text behind the group id: described, refused, or thrown out of the handler |
| TrackerServer.Server.ListFiles | src/tracker/process_request.cpp:296-306 | lists exactly the descriptions of the group's files |
| TrackerServer.Server.Download | src/tracker/process_request.cpp:337-360 | follows the step for the file of that name that the hash order meets first |
| TrackerServer.Server.ProcessFileRequest | src/tracker/process_request.cpp:263-373 | every branch follows the step of the request decoded from the same text |
| TrackerServer.Server.SendLog | src/tracker/process_request.cpp:401-409 | sends the record in order, waiting for each answer, and the end marker behind all of it, up to the exchange that throws |
| TrackerServer.Server.ProcessRequest | src/tracker/process_request.cpp:375-423 | object state and result are those of one specification step; a client whose request is no sync and does not throw is answered with its reply if that goes out, a mirror never; only a sync sends the log and disconnects |
| TrackerServer.Server.Mirror | src/tracker/tracker.cpp:31-56 | sends the line, marked as a mirror, to every listed tracker that is up and whose endpoint text does not hash to its own number, and to no other |
| TrackerServer.Server.LogAndMirror | src/tracker/tracker.cpp:69-74 | one entry more on record; mirrors only for a client's request |
| TrackerServer.Server.ProcessData | src/tracker/tracker.cpp:58-81 | for any message and any failure to send: state, record and mirrors are those of the network theorems; a known request of a client other than a sync is answered with exactly its reply, an unknown one with a refusal, a known mirror with nothing; a success whose reply fails stays off the record |
| TrackerServer.Server.Execute | src/tracker/tracker.cpp:112-113 | a replayed entry makes its step and stays off the record |
| TrackerServer.Server.Receive | src/tracker/tracker.cpp:103-114 | the loop executes exactly the messages before the end marker or before the connection closes, in order, and says which of the two it was |
| TrackerServer.Server.SyncWithOnlineTrackers | src/tracker/tracker.cpp:87-127 | asks each listed tracker that accepts and whose endpoint text does not hash to its own number for a sync in its own name, and takes what it sends, until one sends its whole log; what came from those that broke off stays executed |
| TrackerServer.LogsAreSyncable | src/tracker/process_request.cpp:396-410 | whatever run made a log and wherever the exchange breaks, the receiving loop can execute what it gets: a beginning of the log, and all of it with an end marker exactly if nothing broke |
| TrackerServer.AnsweredIff | src/tracker/process_request.cpp:419-422 | who is answered at all, and that it is the reply of the step |
| TrackerServer.DumpedIff | src/tracker/process_request.cpp:396-410 | entry k, or the end marker, is sent if and only if all before it were sent and acknowledged; and what is thrown then |
| TrackerServer.ReactsIff | src/tracker/process_request.cpp:375-423 | a tracker's callback disconnects only behind a complete sync, and throws exactly what broke a message to the client or left the handler |
| TrackerServer.ReceivedIsTheBeginning | src/tracker/tracker.cpp:103-114 | a joining tracker takes everything up to the first end marker or empty message, and no more |
| TrackerServer.TakenInOrder | src/tracker/tracker.cpp:87-127 | what it takes in all is what each other tracker sends, in the order of the list |
| TrackerServer.TrackerTableStaysSound | src/tracker/process_request.cpp:400-410 | a tracker's data callback disconnects only as the last act of a complete sync and so never throws then: its event loop's table is always sound |
| Delivery.RunIsHeld | src/tracker/process_request.cpp:309-335 | every file that a tracker ever holds has words as pieces, their concatenation as hash, and endpoints that print and parse |
| Delivery.FoundMessage | src/tracker/process_request.cpp:351-355 | the message is the text that the theorems on replies speak of, with all seeders in some order |
| Delivery.OtherNumbersAreAbsent | src/client/process_input.cpp:54-75 | only a response that begins with the number 1 can offer a file; any other number means that it is absent |
| Delivery.NamedFilesTravel | src/client/process_input.cpp:51-62 | the downloader parses seeders, group and description out of the reply |
| Delivery.EmptyGroupHoldsNothing | src/tracker/process_request.cpp:279-312 | no reachable tracker holds a file in a group with an empty id |
| Delivery.ReplyTravelsIff | src/client/process_input.cpp:51-62 | for every file of every reachable tracker, the reply parses back to it if and only if the file has a name; a file without one has no pieces |
| Delivery.ListingMessage | src/tracker/process_request.cpp:196-203 | every element of the set once, each on a line, in some order, or a text of its own if there is none |
| Delivery.Message | src/tracker/process_request.cpp:67-74 | each kind of reply is printed as its branch does |
| Delivery.ListingReadsBack | src/tracker/process_request.cpp:68-74 | a printed listing reads back as exactly the tokens listed, empty ones apart |
| Delivery.UploadReachesDownloader | src/tracker/process_request.cpp:307-360 | a first upload is stored as described, and in every later state of that tracker the reply about it parses back to the description and all current seeders, the uploader among them |
| Hashing.GetSha1 | src/client/hash.cpp:4-17 | the loop prints the hexadecimal text of all twenty bytes |
| Hashing.HashesAreWords | src/client/hash.cpp:8-16 | every hash is one token of forty characters |
| Hashing.HexIsInjective | src/client/hash.cpp:10-15 | different digests print differently |
| Hashing.HexIsRead | src/client/hash.cpp:10-15 | read as hexadecimal numbers, the pairs of characters are the bytes of the digest, high digit first |
| Hashing.EqualHashesMeanEqualPieces | src/models/file.hpp:18-21 | files that the tracker takes for equal have the same list of pieces, because all pieces have forty characters |
| Pieces.BlocksAreWellCut | src/client/file_io.cpp:26-37 | the blocks make up the file; all but the last are full, and none is empty |
| Pieces.GetFileInfo | src/client/file_io.cpp:10-42 | one hash per block in order, their concatenation, and the size |
| Pieces.DescriptionSays | src/client/file_io.cpp:10-42 | name, length in bytes, one hash per block in order, and all hashes in a row |
| Pieces.DescriptionsArePlain | src/client/file_io.cpp:24-41 | every description of a file with a word as name survives the codec |
| Pieces.GetPieceIndex | src/client/file_io.cpp:44-57 | the first index of the piece, or the largest size if and only if the piece is not listed |
| Pieces.ReadAtGivesBlocks | src/client/file_io.cpp:64-86 | reading block i of a file gives the very block whose hash is listed at i, the short last one included |
| Pieces.WriteIsLocal | src/client/file_io.cpp:88-109 | the data stands at its offset afterwards, and no byte before or behind it changes |
| Images.WriteExtendsImage | src/client/file_io.cpp:88-109 | writing any block at its place, in any order, turns the image of the blocks written so far into that with one more |
| Images.ImageIsFileIff | src/client/file_io.cpp:88-109 | an image is the whole file if and only if every missing block is zeros and has a written block behind it |
| Downloads.MarkKeeps | src/client/partfile.cpp:36-45 | marking a remaining piece keeps downloaded and remaining a partition of the pieces and moves exactly that one |
| Downloads.TurnAccounts | src/client/downloadmanager.cpp:64-77 | one visit of the worker keeps all the accounts below, whatever the peers answer |
| Downloads.WorkerAccounts | src/client/downloadmanager.cpp:58-79 | over every run: partition per file; the callback exactly once per completed file with a piece, never else; every downloaded piece written exactly once; remaining pieces and writes add up to the pieces of the queue |
| Downloads.OnlyBlankRepliesVary | src/client/downloadmanager.cpp:24-30 | what the unset status variable held matters only after a blank reply; a blank one of less than two characters makes the worker throw if and only if it held 1 |
| Downloads.FirstGoodIff | src/client/downloadmanager.cpp:14-55 | the loop over peers delivers if and only if some answer has status 1 and data of the piece's hash and none before it is fatal, and throws if and only if one is fatal (an error other than a closed connection, or status 1 with less than two characters) and none before it is such data |
| Downloads.TurnIs | src/client/downloadmanager.cpp:14-77 | a visit kills the worker exactly in that case; leaves everything as it was if no answer is of any use; and otherwise stores the first good data, whatever useless answers stand before it |
| Downloads.UselessPeersDoNotMatter | src/client/downloadmanager.cpp:50-54 | putting peers in front that are down, have not got the piece or send other data changes no visit |
| Downloads.WorkerProgress | src/client/downloadmanager.cpp:58-79 | whatever the peers do and whatever else is queued, a file is complete if and only if at least as many passes served it as it has distinct pieces; each such pass takes one piece off, and nothing else does |
| Downloads.ServedRoundsFeed | src/client/downloadmanager.cpp:58-79 | if every visit to a file meets valid data and no visit to any file throws, every pass serves that file and the worker goes on |
| Reconstruction.StorePlaces | src/client/downloadmanager.cpp:29-41 | valid data for a remaining piece is the block itself, and storing it extends the image |
| Reconstruction.WorkerReconstructs | src/client/downloadmanager.cpp:9-79 | in every state of every run the output of a described content is the image of the pieces that its entry, or its entries if it is queued repeatedly, have, whatever is queued for other paths and whatever is delivered there |
| Reconstruction.OtherFilesStay | src/client/downloadmanager.cpp:36-40 | a path that no entry is written to keeps its file, or stays free |
| Reconstruction.CompleteOutputIff | src/client/downloadmanager.cpp:9-79 | whatever is queued for other paths, a complete output is the source if and only if repeated blocks are zeros and not behind all first occurrences |
| Reconstruction.DistinctBlocksAreReconstructed | src/client/downloadmanager.cpp:9-79 | whatever is queued for other paths, with distinct blocks a complete output is the source byte for byte |
| Reconstruction.FirstOccurrencesAgree | src/client/file_io.cpp:44-57 | a complete output agrees with the source on every first occurrence of a block, whatever repeats |
| DownloadObjects.PartFile.constructor | src/client/partfile.cpp:7-24 | the loops put all pieces on one side: downloaded for an upload, remaining for a download |
| DownloadObjects.PartFile.MarkDownloaded | src/client/partfile.cpp:36-45 | moves the piece unless it is there, and keeps the partition for pieces of the file |
| DownloadObjects.Disk.WritePiece | src/client/file_io.cpp:88-109 | creates or changes that one file as the theorems on images say |
| DownloadObjects.DownloadManager.EnqueueDownload | src/client/downloadmanager.cpp:95-119 | refuses exactly the paths that exist, otherwise appends a part file with nothing downloaded |
| DownloadObjects.DownloadManager.DownloadPiece | src/client/downloadmanager.cpp:9-56 | the loop over peers stores the first good data once, goes on after a closed connection, another status or other data, and leaves the thread with any other error |
| DownloadObjects.DownloadManager.ReadReply | src/client/downloadmanager.cpp:23-47 | reads the status and checks the hash of what is behind it |
| DownloadObjects.DownloadManager.StoreData | src/client/downloadmanager.cpp:36-42 | one write and one mark, at an index that is always found |
| DownloadObjects.DownloadManager.VisitEntry | src/client/downloadmanager.cpp:64-77 | the loop body for one file, with any remaining piece first, is one turn of the specification |
| DownloadObjects.DownloadManager.Pass | src/client/downloadmanager.cpp:67-77 | the inner loop is one pass of the specification over the whole queue |
| DownloadObjects.DownloadManager.DownloadThread | src/client/downloadmanager.cpp:58-79 | the thread is the worker that the theorems speak of, for as many passes as it is left running |
| Serving.TableHoldsFirstAdds | src/client/filesdb.cpp:3-14 | a group and name is in the table if and only if it was ever added, with what the first addition said |
| Serving.GetLineIsRead | src/client/process_request.cpp:13-27 | the serving side reads group, name and piece out of a downloader's request |
| Serving.FramedReply | src/client/downloadmanager.cpp:23-35 | a block behind its framing is accepted for its piece, and taking the framing off gives exactly the block |
| Serving.RefusalsAreUseless | src/client/process_request.cpp:28-50 | the two refusals of a serving client are of no use to a downloader and do it no harm |
| Serving.HonestBlock | src/client/process_request.cpp:35-44 | for an unchanged file the data read for a listed piece is the block at its first index and passes the check |
| Serving.SeederServesIff | src/client/process_request.cpp:17-50 | a client with unchanged uploads gives a downloader good data for a piece if and only if its first addition of that group and name was an upload that lists it; the data is the named block, and any other reply is of no use and does no harm |
| Serving.OtherRequests | src/client/process_request.cpp:47-50 | a request with any other command gets a reply of no use |
| Serving.MissingFileThrows | src/client/process_request.cpp:35-44 | a listed piece of an uploaded file that cannot be opened makes the handler throw |
| Serving.OneGoodPeerServes | src/client/downloadmanager.cpp:14-55 | one peer with valid data is enough wherever it stands in the list, unless an earlier one throws |
| Serving.FilesDB.AddPartfile | src/client/filesdb.cpp:3-14 | the first addition stays and a second one is refused |
| Serving.FilesDB.HasPiece | src/client/filesdb.cpp:48-58 | whether the entry of that group and name has the piece downloaded |
| Serving.FilesDB.ProcessRequest | src/client/process_request.cpp:10-51 | the answer to any request text is that of the specification, at an index that is always found, and the callback never disconnects |
| Serving.PeerTableStaysSound | src/client/process_request.cpp:10-51 | so the table of a client's event loop is always sound |
| Peers.HoldersAfterReplyIff | src/client/process_input.cpp:62-68 | after a reply the known holders of its file are the previous ones and all its seeders if and only if no two endpoints involved share an id; other files keep theirs |
| Peers.PeerDB.AddPeer | src/client/peerdb.cpp:3-13 | the first endpoint of an id stays |
| Peers.PeerDB.RemovePeer | src/client/peerdb.cpp:15-25 | takes out that id only |
| Peers.PeerDB.AddFile | src/client/peerdb.cpp:27-37 | one file more for a known id, nothing for an unknown one |
| Peers.PeerDB.RemoveFile | src/client/peerdb.cpp:39-49 | one file less for a known id |
| Peers.PeerDB.LearnSeeders | src/client/process_input.cpp:63-68 | the loop leaves the table that the theorem on holders speaks of, for some order of the seeders |
| Peers.PeerDB.GetPeers | src/client/peerdb.cpp:51-63 | every holder once and nobody else; their endpoints are distinct when peers are filed under their own ids |
| ClientInput.BasenameIsTheTail | src/client/file_io.cpp:13 | the name is what follows the last slash |
| Commands.CommandIsUnderstood | src/client/process_input.cpp:15-88 | every command that the client hands on goes out marked as a client's request, and the tracker decodes it to this client's number, that request and the words behind the command, missing ones empty |
| Commands.CommandTakesEffect | src/client/process_input.cpp:82-88 | the tracker makes that step; if it succeeds and its reply goes out, the line is recorded and mirrored, otherwise neither |
| Commands.NothingIsSent | src/client/process_input.cpp:17-80 | a listing of downloads, an upload of a file that cannot be opened and a download without destination send nothing and change nothing |
| Commands.NothingIsOffered | src/client/process_input.cpp:51-75 | a response without a file changes nothing; only one that cannot be read to its end throws |
| ClientInput.ReadResponse | src/client/process_input.cpp:52-62 | decides between unreadable, absent, found and thrown as the theorems on replies do |
| ClientInput.Client.UploadFile | src/client/process_input.cpp:19-36 | announces and enters the file, or does nothing if it cannot be opened |
| ClientInput.Client.EnqueueDownload | src/client/downloadmanager.cpp:95-119 | queue and files to serve after it, the first download left out of the latter |
| ClientInput.Client.TakeResponse | src/client/process_input.cpp:51-75 | peers, queue and result for any response of a tracker |
| ClientInput.Client.DownloadFile | src/client/process_input.cpp:37-76 | the same for the whole command; without a destination nothing is sent |
| ClientInput.Client.ProcessInput | src/client/process_input.cpp:13-90 | what any line sends, returns and changes is what the specification says |
| EndToEnd.ClientStaysSound | src/client/process_input.cpp:13-90 | after any lines and responses: peers filed under their own ids, all queued files with nothing downloaded as far as input goes, and the downloads among the files to serve are the queued ones without the first, in order |
| EndToEnd.PeersAreFiled | src/client/process_input.cpp:62-68 | after any lines and responses every known peer is filed under the hash of its endpoint's text |
| EndToEnd.QueuedPaths | src/client/process_input.cpp:37-76 | a path is in the queue if and only if some command was answered with a file while nothing was there |
| EndToEnd.QueuedPathsDistinctIff | src/client/downloadmanager.cpp:95-119 | after any commands and responses the queued paths are distinct if and only if no command queued a file for a path that was queued before and where still nothing was |
| EndToEnd.QueuedTwice | src/client/downloadmanager.cpp:109-117 | the same download command twice in a row queues the same file for the same path twice |
| EndToEnd.SeededRoundsAreServed | src/client/downloadmanager.cpp:9-79 | if a queued file has a serving peer in the table and nobody there throws over any file, every visit to it gets valid data, in whatever order peers are asked, and no visit throws |
| EndToEnd.SeededDownloadsFinish | src/client/downloadmanager.cpp:9-79 | then this file is complete exactly from as many passes on as it has distinct pieces, and its output is the source exactly when repeats do no harm, whatever else is queued for other paths |
| EndToEnd.HonestSeederServes | src/client/process_request.cpp:17-45 | who first uploaded a file under its name and has not changed it serves every piece of it |
| EndToEnd.UploadReachesQueue | src/client/process_input.cpp:19-70 | from the upload command over the tracker's log and reply to the download command: the described file is queued, and all seeders, the uploader among them, are in the peer table |
| EndToEnd.UploadedFileIsSeeded | src/client/process_input.cpp:19-70 | and if the uploader keeps its files and whatever it adds to its table, the queued file has a serving peer, so that the theorem on finishing applies |
| EndToEnd.UploadedFileArrives | src/client/downloadmanager.cpp:9-79 | from the upload command to the downloaded bytes, behind any queue for other paths: complete exactly from as many passes on as there are distinct pieces, and then equal to the uploaded content exactly if repeats do no harm |
| TcpServer.DataSoundIff | src/network/tcp_server.cpp:94-135 | input from a client keeps the table sound if and only if the callback did not both disconnect its client and throw something that the loop catches |
| TcpServer.TableStaysSound | src/network/tcp_server.cpp:45-140 | at every loop head: the watched descriptors are the listening one and the pairwise distinct ones of the clients, no more clients than allowed, and callbacks as they should have been |
| TcpServer.CallbacksComeInOrder | src/network/tcp_server.cpp:75-123 | each client is announced once before all its data, and its end is told at most once and last |
| ClientService.AdmittedIff | src/network/tcp_server.cpp:63-84 | a connection request ends in the table, announced and watched under a descriptor of its own, if and only if the table is below the limit; otherwise nothing changes |
| ClientService.HandleTells | src/network/tcp_server.cpp:92-135 | input from a client tells of it and nobody else, with its text and then its end if that ends it, and only it can leave |
| ClientService.RoundTreatsEveryClient | src/network/tcp_server.cpp:45-140 | in every round that the loop survives each client of the table that is ready gets exactly its own input, each other nothing, and a client leaves exactly if its connection or its callback ended it |
| ClientService.NewcomerIsAdmitted | src/network/tcp_server.cpp:61-84 | a connection request that meets a table below the limit is a connected client after the round, whatever else the round brings |
| ClientService.LoopEndsIff | src/network/tcp_server.cpp:45-140 | the loop ends only with an error that it does not catch, a failing accept or a failing select |
| TcpServer.EventLoop.constructor | src/network/tcp_server.cpp:8-13 | the limit is kept below 256 |
| TcpServer.EventLoop.AcceptClient | src/network/tcp_server.cpp:63-84 | admits and announces a client below the limit, turns it away at the limit |
| TcpServer.EventLoop.FindClient | src/network/tcp_server.cpp:89-91 | the search finds the first client with that descriptor |
| TcpServer.EventLoop.DropClient | src/network/tcp_server.cpp:115-124 | out of both tables and told once, whichever branch does it |
| TcpServer.EventLoop.CatchError | src/network/tcp_server.cpp:111-135 | what each caught error does to the tables |
| TcpServer.EventLoop.HandleClient | src/network/tcp_server.cpp:92-135 | object state after input from a client, for any behaviour of the callback |
| TcpServer.EventLoop.ServeDescriptor | src/network/tcp_server.cpp:61-137 | one ready descriptor |
| TcpServer.EventLoop.ServeRound | src/network/tcp_server.cpp:47-139 | one round over the descriptors that were ready when select returned |
| TcpServer.EventLoop.ServeRequests | src/network/tcp_server.cpp:35-141 | the thread is the loop that the theorems speak of |

## Left out

Contracts that say less than one might wish:

- Network.TrackersAgree: mirrors arrive in order and none is lost, all clients use one tracker and mark their requests for mirroring, and a join happens at one point of the other's run. The code guarantees none of this: each mirror has a connection of its own and is not retried, and mirrors sent between the end of a sync and the start of the server are lost (src/tracker/tracker.cpp:195-198). `Network.LostMirrorIff` says what a lost mirror does; reordered mirrors are not modelled.
- TrackerServer.Server.SyncWithOnlineTrackers: whether a socket whose connection broke off can be connected again is a matter of the system; here `offers` says so.
- TrackerServer.Server.Upload: an exception that leaves the handler (a port out of range, or a line that ends right behind the endpoint) changes nothing here; in the original it also ends the process, because nobody catches it in the server's thread.
- Reconstruction.CompleteOutputIff: nothing is at the path when the worker starts, and whatever else is queued for it describes the same content; nothing is stated of two different contents queued for one path; `EndToEnd.QueuedPathsDistinctIff` says when a path can be queued again. A file that is queued while the worker runs is an entry that meets no peers before.
- Reconstruction.WorkerReconstructs: among the blocks of the source and the texts that peers deliver, only the blocks themselves have their hashes; SHA-1 is otherwise an arbitrary function.
- EndToEnd.SeededDownloadsFinish: nobody who is asked makes the worker throw, because that ends it for all files; the peer table and what peers answer do not change while the worker runs.
- ClientInput.Client.ProcessInput: an exchange with the tracker is never cut off; starting the download thread is not part of it.
- TcpServer.TableStaysSound: a callback touches no connection but its own, the connect and disconnect callbacks do nothing to the tables, and descriptors stay below FD_SETSIZE. A loop that an exception has left is dead and nothing is claimed of it.
- Replay.ReplayFaithfulIff: users are told apart by the creates that allocated them, as the original tells its user objects apart by address. Two requesters of one name and one password who are nothing else any more cannot be told apart from outside; after an accept between such two the trackers are counted as different although a renumbering of users makes them equal (`Renaming.LookalikesAreAlike`). The same goes for Agreement.AmbiguousAcceptDiverges and Network.TrackersAgreeIff.
- ThirdTracker.ThirdTrackerIff: what the second tracker executed itself is replayable in the sense of `Replay.ReplayFaithfulIff`; what it replayed to join may be anything.

Not modelled:

- Real sockets, blocking and partial reads (src/network/tcp_socket.cpp): messages are whole units.
- Locks and data races between the input thread, the worker and the server: each runs as sequential steps.
- start_downloads, pause_downloads, list_downloads, and dequeue_download, which only searches and returns false.
- Several spellings of one path, links and directories: a path is its text.
- Failing or short disk transfers; overflow of `index * block_size`.
- remove_partfile, has_file, is_complete and mark_downloaded of FilesDB, deleteGroup of GroupDB: nothing calls them.
- Convergence of trackers that clients write to concurrently: the code does not provide it.
- Reading the list of trackers, command-line arguments, printing.
