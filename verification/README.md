# Verified models of the network disk, the thread pool and the exercises around them

A Dafny model of the programs in this repository whose correctness is not visible in one function,
with proofs. `dafny verify dfyconfig.toml` checks everything.

The network disk keeps a directory tree per user in the rows of table `FILE` and all file contents
in one store named by digest. Its server is one event loop, two linked work queues and any number
of worker threads; files are transferred so that a broken transfer is resumed. Beside it stand a
thread pool that waits for its workers when it stops, a framed file transfer, a bounded buffer with
a mutex and two condition variables, a directory walk with a queue, a sorted linked list, and two
processes that share a counter.

| file | what it models |
|---|---|
| `PathWalk.dfy` | table `FILE`; a path resolved by its list of components, and the character loops |
| `NetDisk.dfy` | all commands as steps of a state machine, and the invariant of every run |
| `Commands.dfy` | what the commands mean to a client: where an option leads, and what is done there |
| `Sessions.dfy` | sessions over runs: who can log in, where a session stands, reading back from there |
| `Registrations.dfy`, `SteadyPaths.dfy` | when directory names stay unique, and which paths go on leading to one place |
| `ReadBack.dfy`, `ReadYourWrites.dfy` | one user's file among everybody's commands: read your writes, and exactly when it is promised |
| `Uploads.dfy`, `Downloads.dfy` | the same from the sender's disk to the reader's, through the exchanges that transfer the file |
| `SharedFile.dfy` | one file of the store under several writers |
| `NetDiskFiles.dfy` | all files of the disk: unique names and right contents |
| `NetDiskLimits.dfy`, `Draining.dfy` | where that ends, as exact conditions, and whose files the commands show, send and delete |
| `SeedRuns.dfy` | the failures as runs from the shipped database dump, step by step |
| `Server.dfy`, `ClientTable.dfy` | the `do_task` functions on tables and slots changed in place |
| `WorkQueue.dfy` | the work queue as a sequence, and on the heap |
| `Dispatcher.dfy` | event loop, queues and workers as an interleaved step system, and the event loop on the heap queues |
| `Transfer.dfy`, `Exchange.dfy` | `send_n`, `recv_n`, resumed transfers, and the two-party exchange of sizes and data |
| `Framing.dfy` | the length-prefixed frames of the thread pool and the client that parses them |
| `BoundedBuffer.dfy` | the ring buffer and any number of producers and consumers around it |
| `ThreadPool.dfy` | the worker loop and the signal, read, join loop that stops the pool |
| `BreadthFirst.dfy` | the walk with a queue against the recursive walk |
| `SortedList.dfy` | the linked list of `ls`, on the heap |
| `Counter.dfy` | the counter without and with a semaphore |
| `CommandLine.dfy` | the client's command parser, in place on its buffer |
| `Bytes.dfy`, `Sequences.dfy`, `Options.dfy` | integers as bytes, sequence facts, an option type |

Code that changes state step by step is a class or a method here as well, and each such method is
proved to take exactly the step that the lemmas speak of: the `do_task` methods the steps of
`NetDisk`, the methods of `MainLoop` the steps of `Dispatcher`, the heap queue the sequence
functions of `QueueSpec`, the ring buffer a first-in first-out sequence.

## What was found

These are results about the code; each bullet names the lemmas that prove it.

- **Read your writes holds, for one file among everybody's commands** (`ReadYourWrites`): once the
  upload has ended, nothing that anybody does short of its removal changes what `gets` sends; up to
  its end, nobody may open the store's unfinished file of that content while somebody else writes to it,
  and no other content may be accepted for that path. `ReadYourWritesExactly` says in the state in
  which the file is open when this is promised for every continuation (an unfinished creator does no harm
  to an upload that has finished, but does to one that is appending), `OpenSettlesExactly` and
  `StaysSettledExactly` say it for the opening and for every later step.
- **Two uploads of equal content at once can corrupt the stored file**, whoever the users are and
  wherever the files go. The one that creates the digest-named file opens it without `O_APPEND` and writes
  at its own offset; the others append, from the offsets they saw when they opened it (server.c:1068-1080).
  `OverlapOnOneDigest` is a run from the dump after which the store has 0, 1, 1 under the digest of 0, 1.
  Such pieces leave a beginning of the content, whatever the content, exactly when each appended piece
  lands at its own offset or the creator goes on to write over all of it (`SharedFileExactly`); in every
  run the stored file is what these pieces make of it (`RunIsReplay`).
- **Two uploads of one user to one absent path at once insert two rows** (`OverlapOnOnePath`, a run from
  the dump). The row inserted at the end keeps file names unique exactly when no file of that name is
  there then; the check is at the beginning (`EndKeepsUniqueExactly`).
- **These two overlaps are all that can go wrong with the files of the whole disk.** Accepting an upload
  is safe for everything that may happen next if and only if no upload in progress goes to the same
  file of the same user, and none has the same digest unless the store holds all of that content
  already (`AcceptExactly`). The server could look at this before it answers; it does not.
- **Two registrations of one name at once make two home directories**, and the second connection is
  logged in under a code that was never stored (`RegistrationsRace`, a run from the dump) and that never logs
  in again unless it hashes alike (`LosingCodeExactly`): the name is looked up under one lock and inserted
  under another, and nobody looks at the failure of the insert. The insert keeps directory names unique exactly when the name is no user then
  (`InsertKeepsUniqueExactly`), and accepting a registration is safe exactly when no other one of that
  name is under way (`RegistExactly`). Everything else that the tree promises holds all the same
  (`NetDisk.RunKeepsInv`): such twins have no directory below them.
- **`ls` shows files of other users**, although `NET_DISK_TASK/readme.md` promises that users see only
  their own: the owner filter at server.c:458 is commented out. In every state a listed file is what
  `gets` finds under its path if and only if the session's user owns it (`ListedIsGotExactly`;
  `LsShowsOthersFiles` is an example with the rows of the dump), and every user can put files into every
  directory by its absolute path (`AnyoneCanPlace`).
- **The row of an upload is inserted even when the transfer fails** (server.c:993-1010): `gets` then finds
  the row, and of the content the store need hold only what had arrived (`InterruptedIsListed`). A later complete
  upload of the same content, by any user to any path, completes it (`LaterUploadCompletes`).
- **A resumed download of a file that grows meanwhile gets too many bytes**, because `sendfile` is asked
  for the file's size and not for what is left of it (`GrownFileSpills`). What follows is exactly what was
  announced if and only if the local file was empty or complete, or the sender's has not grown
  (`FinishedExchange`). A file that is stored whole does not grow (`HeldIsDownloaded`).
- **The framed client is right exactly when the local file was not longer** than the server's: it opens
  without truncating (`OverwriteExactly`).
- **`queue_pop` never repairs `tail`**, because `0 == q->size--` is false there; the stale pointer is
  never followed as long as no insert follows `queue_head_insert_exit` into an empty queue, and that
  function leaves `tail` good exactly when the queue was not empty (`HeadInsertExit`). The event loop
  never does that: `MainLoop` runs on these queues.
- The unlocked counter ends at exactly the values from 2 to 2N (`AttainableExactly`).

## Assumptions

- User names are not empty and have no `/`; a name or a path before a `$` has no `$`. SQL comparison
  is equality of texts. When several rows match, any of them may come first, but the same one as long
  as the table is the same.
- The digest is an injective function of which nothing else is known; clients announce the digest of
  the file they send and do not change that file meanwhile. The password hash is any function.
- At most TCP_CAPACITY connections are open at once, `accept` returns a descriptor that is not open,
  and no client sends order -1.
- `sendfile` delivers all bytes it is asked for, up to the end of the file, unless the connection breaks,
  and a client does not send its next command while its upload is being received.
- What one thread does while it holds a mutex is one step. Between steps threads interleave in every
  way, and condition variables may wake a thread for no reason. A command that takes the database lock
  several times is several steps where other commands in between matter: registrations, removals and
  uploads. The lookups along a path see one table; `PathWalk.WalkedAtOnce` proves why that loses nothing
  while directory names are unique.
- In the pool, clearing the flag does not fall between a worker's test and its wait, and the flag is
  set before the first worker looks at it.
- The dump's stored file has as its digest the one its rows name.

## Model

Paths are relative to the root of the repository.

| member | source | states |
|---|---|---|
| ReadYourWrites.ReadYourWrites | NET_DISK_TASK/SERVER/src/server.c:757-1138 | After any commands of any users, an accepted upload of c to the path p, any commands until all of c has arrived, its end, and any commands but a removal of p by its owner: `gets` of p by that user sends exactly c, in any session. Asked for is only that up to the end nobody opens the store's file of c beside an unfinished upload of c, nothing else is accepted for p, and p is steady; nothing is asked of what follows. |
| ReadYourWrites.ReadYourWritesExactly | NET_DISK_TASK/SERVER/src/server.c:1059-1138 | In the state in which an upload's file is open: every continuation that keeps the above reads c back, with whichever row the database answers, if and only if the store is in place for the upload (an appending one needs exactly the bytes before its offset, the creator needs those right and the file not too long), no other upload of c is unfinished, except the creator's when this one has finished, and the place has neither rows nor uploads of another content. |
| ReadYourWrites.OpenSettlesExactly | NET_DISK_TASK/SERVER/src/server.c:1068-1080 | Opening the store's file brings the upload into such a state if and only if the store holds a beginning of its content, no other unfinished upload has it open (or only the creator's, when the store holds all of it), and the place is of that content. |
| ReadYourWrites.StaysSettledExactly | NET_DISK_TASK/SERVER/src/server.c:878-1138 | A step of any client takes the upload out of such a state if and only if it accepts another content for its place or opens its content's file while that and the upload are unfinished. |
| ReadYourWrites.InterruptedIsListed | NET_DISK_TASK/SERVER/src/server.c:993-1010 | After the end of an upload that broke off, `gets` finds the row and promises the digest; the store has what had arrived in place, and nothing more or the whole content when its file was tidy; the file is stored if and only if the store holds the whole content. |
| ReadYourWrites.LaterUploadCompletes | NET_DISK_TASK/SERVER/src/server.c:1068-1134 | Once a later upload of the same content, by anybody to any path, has received everything, the interrupted file is stored, when meanwhile nobody opened that content beside an unfinished upload of it and nobody removed the file. |
| Uploads.UploadFollowsExchange | NET_DISK_TASK/SERVER/src/server.c:1059-1138 | However far the exchange of a puts has got, and whatever steps of others fall in between, the upload's offset is where recv_file is, what it has taken from the stream is the client's file from the first offset on, and when it has finished the upload is complete. |
| Uploads.FinishedUploadIsStored | NET_DISK_TASK/SERVER/src/server.c:993-1138 | An upload whose exchange finishes while nobody crowds its content or claims its place is stored after its end, over every run without its removal. |
| Downloads.UploadIsDownloaded | NET_DISK_TASK/SERVER/src/server.c:757-1138 | From the accepted upload to the reader's disk: `gets` names c's digest, and a finished transfer leaves exactly c in a local file that was new or held a beginning of c, with nothing left on the streams, whatever commands run meanwhile. |
| Downloads.HeldIsDownloaded | NET_DISK_TASK/SERVER/src/server.c:1024-1057 | A file that is stored whole does not change between the stat and the sendfile, whatever commands run, so its transfer is exact. |
| Downloads.RunKeepsSize | NET_DISK_TASK/SERVER/src/server.c:1068-1134 | No run makes a file of the store shorter, so sendfile finds at least as many bytes as were announced. |
| ReadBack.RunKeepsStored | NET_DISK_TASK/SERVER/src/server.c:478-1138 | A file that is stored whole stays so over every run without its removal, with no other condition: removals of others, files of the same name elsewhere, and uploads of equal content at the same time do not touch it. |
| ReadBack.CompleteUploadIsStored | NET_DISK_TASK/SERVER/src/server.c:993-1010 | Ending an upload whose bytes have all arrived puts a row at its place, all rows there name its digest, and the store holds the whole content under it. |
| ReadBack.UploadStays | NET_DISK_TASK/SERVER/src/server.c:1059-1138 | Nothing that any client does changes an accepted upload's owner, name, directory, digest or content before it ends. |
| ReadBack.RunKeepsTidy | NET_DISK_TASK/SERVER/src/server.c:1059-1138 | Over every run in which nobody opens the store's file of c beside an unfinished upload of c, that file is a beginning of c and at most one upload appends to it, at its end; uploads of other contents are free. |
| SteadyPaths.RunKeepsTarget | NET_DISK_TASK/SERVER/src/server.c:796-824 | A steady path to a file leads to the same directory and name after every run. |
| SteadyPaths.SteadyExactly | NET_DISK_TASK/SERVER/src/server.c:686-755 | A path's lookups have one answer in every run if and only if they have one now and no registration under way is for the name of the home directory it leads through. |
| NetDiskFiles.RunKeepsFiles | NET_DISK_TASK/SERVER/src/server.c:878-1138 | Over every run without such overlapping uploads: files are unique per owner, name and directory, and every stored file is a beginning of the one content with its digest. |
| NetDiskFiles.EndKeepsUniqueExactly | NET_DISK_TASK/SERVER/src/server.c:963-1010 | The row inserted at the end of an upload keeps files unique if and only if no file of that owner and name is in that directory then. |
| NetDiskFiles.SeedFiles | NET_DISK_TASK/net_disk_project.sql:45 | The rows of the dump satisfy all the invariants, so every theorem applies to runs from it. |
| NetDiskLimits.AcceptExactly | NET_DISK_TASK/SERVER/src/server.c:963-1138 | Accepting an upload of a logged-in user keeps files unique and stored files right over every run that follows, if and only if no upload in progress has the same target, and none has the same digest with content still missing. |
| NetDiskLimits.BothOpenAndDrain | NET_DISK_TASK/SERVER/src/server.c:1068-1134 | Two uploads of any one content that is not all there yet, of which the second has its file still to open, have a run after which the stored file is longer than the content: the one that may have created the file writes first, the other appends. |
| NetDiskLimits.OverlapOnOneName | NET_DISK_TASK/SERVER/src/server.c:963-1010 | Two accepted uploads of one user to one path have a run that leaves two rows of one name. |
| Draining.Drain | NET_DISK_TASK/SERVER/src/server.c:1093-1134 | An upload left alone can receive exactly what is missing, in pieces of at most 1000 bytes. |
| SharedFile.SharedFileExactly | NET_DISK_TASK/SERVER/src/server.c:1068-1134 | Pieces of one content, appended or written at the creator's moving offset, leave a beginning of it for every content of that size if and only if each appended piece lands at its own offset or the creator goes on to write over all of it. |
| SharedFile.UnmendedBreaks | NET_DISK_TASK/SERVER/src/server.c:1068-1134 | For all other pieces it constructs a content for which the file is wrong in the end, whatever it was before. |
| SharedFile.ChunkIsPiece | NET_DISK_TASK/SERVER/src/server.c:1093-1134 | A receive step writes one such piece: of the upload that created the file at its offset, of any other to the end. |
| SharedFile.RunIsReplay | NET_DISK_TASK/SERVER/src/server.c:1059-1138 | In every run of all clients a file of the store is what the pieces written to it, in their order, make of it. |
| SharedFile.AppendersInOrder | NET_DISK_TASK/SERVER/src/server.c:1068-1134 | Without pieces of the creator the condition comes to each piece starting where the file ends at that moment. |
| SeedRuns.OverlapOnOneDigest | NET_DISK_TASK/SERVER/src/server.c:1068-1134 | A run from the dump: two users register, each uploads the same two bytes to the own home directory at once, both uploads go through, and `gets` promises a file whose stored content is wrong. |
| SeedRuns.OverlapOnOnePath | NET_DISK_TASK/SERVER/src/server.c:963-1010 | A run from the dump: a user registers, logs in a second time, and uploads to one path from both sessions; two rows of one name stand in the table. |
| SeedRuns.RegistrationsRace | NET_DISK_TASK/SERVER/src/server.c:708-750 | A run from the dump: two connections register one name at once; two directories of that name stand below the root, and the second connection is logged in under a code that was never stored. |
| Registrations.InsertKeepsUniqueExactly | NET_DISK_TASK/SERVER/src/server.c:729-736 | The inserts of a registration keep directory names unique per parent if and only if the name is no user at that moment. |
| Registrations.RegistExactly | NET_DISK_TASK/SERVER/src/server.c:708-736 | Accepting a registration keeps directory names unique over every run that follows without further registrations, if and only if no other registration of that name is under way. |
| Registrations.RunKeepsDirs | NET_DISK_TASK/SERVER/src/server.c:686-755 | Over every run in which no registration is accepted while another one of its name is under way, directory names stay unique per parent. |
| NetDiskLimits.RemoveForgetsExactly | NET_DISK_TASK/SERVER/src/server.c:478-596 | For every option: `remove` succeeds if and only if `gets` of the same path would send; it deletes exactly the row that `gets` would have sent, a file of the session's user, and nothing else; and, on a path without twins, `gets` finds nothing there afterwards if and only if that was the only such row. |
| NetDiskLimits.GetsOwnFiles | NET_DISK_TASK/SERVER/src/server.c:826-855 | `gets` sends only files of the session's own user, and the digest-named file it opens is there. |
| NetDiskLimits.ListedIsGotExactly | NET_DISK_TASK/SERVER/src/server.c:453-472 | In every state with unique files: a listed file is what `gets` finds under the directory's path, a slash and its name if and only if the session's user owns it; otherwise `gets` sends the user's own file of that name there, or none. |
| NetDiskLimits.AnyoneCanPlace | NET_DISK_TASK/SERVER/src/server.c:963-1010 | For every directory that has no twin and every logged-in user there is a run of that session that puts a file of the user there, under any name the user has no file of. |
| NetDiskLimits.LsShowsOthersFiles | NET_DISK_TASK/SERVER/src/server.c:453-472 | With the rows of the dump, user ddrh is shown a file that belongs to user 1 and that no `gets` of ddrh finds. |
| NetDisk.RunKeepsInv | NET_DISK_TASK/SERVER/src/server.c:239-1022 | In every run of every client, without any condition: each row's owner is a user, its parent an older directory (the root its own), two directories of one name in one place have no directory below them, every home and every session's path resolves to a directory, every pending upload's directory exists, every file row's digest is in the store, and what a removal is about to delete is a file. |
| NetDisk.FileKeepsTree | NET_DISK_TASK/SERVER/src/server.c:1005-1010 | A file row under the next id in an existing directory keeps the tree and removes no directory. |
| NetDisk.HomeKeepsTree | NET_DISK_TASK/SERVER/src/server.c:729-736 | The home row of a registration keeps the tree, also when it is the second of its name. |
| NetDisk.HomeResolves | NET_DISK_TASK/SERVER/src/server.c:714-736 | The path that registration stores, /root/ and the name, resolves through the root row that is its own parent to a home directory of that name, and to the inserted one when directory names are unique. |
| NetDisk.EveryDirectoryIsReachable | NET_DISK_TASK/net_disk_project.sql:25-36 | Parents being older, every chain of parents ends at the root, and resolving the names along it finds the directory again, unless it has a twin. |
| NetDisk.SeedInv | NET_DISK_TASK/net_disk_project.sql:45 | The state after loading the dump satisfies the session and tree invariant. |
| Commands.TransferLeads | NET_DISK_TASK/SERVER/src/server.c:764-824 | The path that gets and puts walk, whatever the tables and the session: an absolute option leads from the root, any other one, also the empty one, from the directory the session stands in, along the option's own components. |
| Commands.ShellLeads | NET_DISK_TASK/SERVER/src/server.c:250-284 | The path that cd and ls walk leads where the option leads: no option to where the session stands (and nowhere before a login), an absolute one from the root, any other from there, with one trailing slash not counting. |
| Commands.GetsExactly | NET_DISK_TASK/SERVER/src/server.c:757-855 | `gets` sends the name and digest of a file of the session's user at the place the option leads to if there is one, says that there is no such file if there is none, and that the path is no file's if it leads nowhere. |
| Commands.PutsExactly | NET_DISK_TASK/SERVER/src/server.c:878-990 | `puts` is accepted if and only if the option leads to a place where the session's user has no file; it is then noted with that user, directory, name and digest, and a refused one changes nothing. |
| Commands.PlainNameExactly | NET_DISK_TASK/SERVER/src/server.c:764-855 | For a name without a slash: `gets` sends if and only if the user has a file of that name in the directory where the session stands, `puts` is accepted if and only if not, and then for that directory and name. |
| Commands.RemoveExactly | NET_DISK_TASK/SERVER/src/server.c:478-596 | `remove` deletes one file of the session's user at the place the option leads to, or, if there is none, changes nothing. |
| Commands.CdExactly | NET_DISK_TASK/SERVER/src/server.c:239-354 | `cd` answers "go to" if and only if the option leads to a directory from where the session stands. Then the session stands exactly there and `pwd` shows the joined path; its name, everybody else's session and all else stay. Otherwise nothing changes. |
| Commands.CdComposes | NET_DISK_TASK/SERVER/src/server.c:239-354 | After `cd x` a relative y leads, as a file and as a directory, where x/y led before; no option leads where x led. |
| Commands.CdThenCommand | NET_DISK_TASK/SERVER/src/server.c:239-1022 | So after `cd x`, `gets`, `puts`, `ls` and `cd` of y answer and do what those of x/y would have, and `ls` alone shows what `ls x` showed. |
| Commands.SlashesAtEnd | NET_DISK_TASK/SERVER/src/server.c:293-323 | A slash at the end of an option changes nothing for cd and ls, two make it lead nowhere, and one makes it no path of a file. |
| Commands.LsExactly | NET_DISK_TASK/SERVER/src/server.c:356-475 | `ls` lists a row, of whatever owner and kind, if and only if its parent is the directory that the option leads to. |
| Commands.ListedIsReachedExactly | NET_DISK_TASK/SERVER/src/server.c:239-475 | `ls`, `cd` and `gets` agree below a listed directory: a directory of a name is listed if and only if `cd` of the directory's path, a slash and the name goes to one of those listed, and a file of the session's user if and only if `gets` of that path sends. |
| Sessions.RegistrationLogsInExactly | NET_DISK_TASK/SERVER/src/server.c:613-755 | Over every run: after a registration of a new name has ended, whatever follows, an idle connection logs in with that name and a code if and only if the code hashes with the salt as the registered one does (or, when somebody else has registered the name meanwhile, as that one's does). It then has the name and /root/ and the name for its path; otherwise no session and nothing else changes. |
| Sessions.UserLogsInExactly | NET_DISK_TASK/SERVER/src/server.c:636-661 | No run changes what is stored of a user, so the codes that log in are always those whose hash with the stored salt is the stored one. |
| Sessions.LosingCodeExactly | NET_DISK_TASK/SERVER/src/server.c:708-750 | Of two registrations of one name at once the code of the first to end counts for ever; the other one's logs in if and only if it hashes alike. |
| Sessions.StrangersGetNothing | NET_DISK_TASK/SERVER/src/server.c:613-1022 | In every run, a connection that has neither registered nor logged in with a right code is nobody's: it is sent no file, removes none, and what it uploads gets no row. |
| Sessions.StandsAtHome | NET_DISK_TASK/SERVER/src/server.c:714-750 | After a registration the session stands in a directory of the user's name below the root, the inserted one when directory names are unique. |
| Sessions.LoginComesHome | NET_DISK_TASK/SERVER/src/server.c:640-655 | After a login of a registered user it stands there as well. |
| Sessions.StaysThere | NET_DISK_TASK/SERVER/src/server.c:239-1022 | Whatever others run, a session that does not itself cd, log in, register or leave stands in the same directory, if its path is steady. |
| Sessions.ReadYourWritesFromHere | NET_DISK_TASK/SERVER/src/server.c:757-1138 | Read your writes by places: what was uploaded by an option that led to a place is sent, exactly, to every session of the user whose option leads to that place, from wherever it stands, and listed there to everybody; the path need not be steady. |
| Sessions.PlacedIsListed | NET_DISK_TASK/SERVER/src/server.c:453-472 | What a user puts into any directory is listed there afterwards to every session whose option leads to that directory. |
| PathWalk.WalkDirectory | NET_DISK_TASK/SERVER/src/server.c:293-352 | The character loop of cd and ls with its final lookup finds the directory that following the components between slashes finds, with one trailing slash dropped, or fails when that does; for every table. |
| PathWalk.WalkFile | NET_DISK_TASK/SERVER/src/server.c:531-595 | The character loop of remove, gets and puts and its check of the last name agree with following all components but the last, the last being a non-empty file name; for every table. |
| PathWalk.WalkedAtOnce | NET_DISK_TASK/SERVER/src/server.c:293-321 | A walk whose lookups see different tables, between which directories are only added, succeeds with what the last table gives, or fails where the first one fails. |
| PathWalk.RelativeDirectory | NET_DISK_TASK/SERVER/src/server.c:253-284 | Resolving the current path, a slash and an option is resolving the option from the current path's directory. |
| PathWalk.RelativeFile | NET_DISK_TASK/SERVER/src/server.c:757-824 | The same for files. |
| PathWalk.CanonicalPath | NET_DISK_TASK/SERVER/src/server.c:323-352 | The path that cd stores, with its trailing slash cut off, resolves to the directory it went to, so later relative paths start there. |
| PathWalk.EmptyComponentFails | NET_DISK_TASK/SERVER/src/server.c:293-321 | A path with an empty component, two slashes in a row, resolves to nothing. |
| PathWalk.ResolveStable | NET_DISK_TASK/SERVER/src/server.c:293-352 | A path that resolves goes on resolving to the same directory as long as no directory row goes away and none on it gets a twin. |
| PathWalk.SplitConcat | NET_DISK_TASK/SERVER/src/server.c:293-321 | The components of two texts joined by a slash are those of the one followed by those of the other. |
| PathWalk.SplitJoin | NET_DISK_TASK/SERVER/src/server.c:293-321 | Joining components with slashes and splitting again yields the components. |
| PathWalk.JoinSplit | NET_DISK_TASK/SERVER/src/server.c:293-321 | Splitting a path and joining it again yields the path. |
| Server.Server.constructor | NET_DISK_TASK/SERVER/src/server.c:3-42 | The server starts with the tables and the store it finds, and with no session. |
| Server.Server.DoTaskCd | NET_DISK_TASK/SERVER/src/server.c:239-354 | In place, on the slot: answers "go to" if and only if the option leads to a directory from where the session stands, and then the session stands exactly there, its name, the other sessions and the tables untouched; otherwise nothing changes. |
| Server.Server.DoTaskLs | NET_DISK_TASK/SERVER/src/server.c:356-475 | Lists a row, of whatever owner and kind, if and only if its parent is the directory that the option leads to, and changes nothing. |
| Server.Server.FindRemoved | NET_DISK_TASK/SERVER/src/server.c:478-580 | The SELECT of remove takes exactly its step, whatever other sessions do before the DELETE. |
| Server.Server.DoTaskRemove | NET_DISK_TASK/SERVER/src/server.c:478-596 | The whole of remove, undisturbed: the row found is deleted in place, or nothing changes. |
| Server.Server.DoTaskPwd | NET_DISK_TASK/SERVER/src/server.c:598-611 | Answers the session's path and changes nothing. |
| Server.Server.DoTaskLogin | NET_DISK_TASK/SERVER/src/server.c:613-667 | Name and stored path go into the slot if and only if there is such a user and the hash of the sent code with the stored salt is the stored code; otherwise no slot changes. Over runs that is `Sessions.RegistrationLogsInExactly`. |
| Server.Server.CheckName | NET_DISK_TASK/SERVER/src/server.c:686-718 | The SELECT of a registration accepts exactly the names that are no user. |
| Server.Server.InsertUser | NET_DISK_TASK/SERVER/src/server.c:723-750 | The inserts under one lock and the slot: the user row unless the name is taken by now, the home directory row all the same, and the session. |
| Server.Server.DoTaskRegist | NET_DISK_TASK/SERVER/src/server.c:686-755 | The whole registration, undisturbed: a new name gets a user row, a home directory row and the session; a used one changes nothing. |
| Server.Server.DoTaskGets | NET_DISK_TASK/SERVER/src/server.c:757-876 | Answers with the name and digest of a file of the session's user at the place that the option leads to from where the session stands, that there is none, or that the path is no file's. |
| Server.Server.FindTarget | NET_DISK_TASK/SERVER/src/server.c:878-990 | The SELECT of puts: the upload is noted for the session's user, with the directory and name that the option leads to from where the session stands, if and only if the user has no file there; a refusal changes nothing. |
| Server.Server.InsertFile | NET_DISK_TASK/SERVER/src/server.c:1005-1010 | The row is inserted whatever recv_file returned, unless its owner is no user. |
| Server.Server.DoTaskPuts | NET_DISK_TASK/SERVER/src/server.c:878-1022 | The whole of puts, undisturbed, from the check to the inserted row: refuses without any change, and otherwise ends, however many bytes arrived, with one row more, of the session's user at the place that the option led to, and the store that the receive steps leave. |
| Server.Server.ReceiveFile | NET_DISK_TASK/SERVER/src/server.c:1093-1134 | The receive loop writes to the digest-named file, at the upload's own offset or with O_APPEND to the end, exactly what the state machine's receive steps write, and ends at the same offset. |
| Server.UploadedIsRun | NET_DISK_TASK/SERVER/src/server.c:1059-1138 | What an undisturbed upload does is a run of the state machine's steps of that one connection. |
| Server.SplitAtDollar | NET_DISK_TASK/SERVER/src/server.c:891-901 | The two loops take an option apart at its first dollar sign. |
| Server.ParseRendered | NET_DISK_TASK/CLIENT/src/client.c:143-240 | What the client renders as name, dollar sign and code, or path, dollar sign and digest, comes apart into the same two texts. |
| ClientTable.FindSlot | NET_DISK_TASK/SERVER/src/server.c:63-74 | The search finds the first slot with a descriptor, and runs off the table if and only if no slot has it. |
| ClientTable.FullTable | NET_DISK_TASK/SERVER/src/main.c:125-133 | A table of distinct clients with no free slot has as many clients as slots, so below capacity accept finds one. |
| Dispatcher.ExclusiveOwnership | NET_DISK_TASK/SERVER/src/main.c:105-213 | Exclusive ownership in every reachable state, with any numbers of workers: for each descriptor the queued tasks and those held by workers are exactly one while it is connected with its flag set, and none otherwise. |
| Dispatcher.RunKeepsInv | NET_DISK_TASK/SERVER/src/main.c:105-213 | The inductive form: every step of main and of a worker keeps that balance, distinct descriptors in the table, and every scan on its way to its slot. |
| Dispatcher.SafeInEveryRun | NET_DISK_TASK/SERVER/src/main.c:110-211 | In every reachable state, when main reads a client's socket, frees its slot or gives its descriptor a task, no queued task and no worker names that descriptor, also for one that accept hands out again; and both queues have room. |
| Dispatcher.InsertNeverRejects | NET_DISK_TASK/SERVER/src/main.c:32-57 | At every dispatch both queues are below capacity, so the result of queue_insert that nobody looks at is always success. |
| Dispatcher.ExactlyOneTask | NET_DISK_TASK/SERVER/src/server.c:63-74 | For an open descriptor, is_client_work tells whether its one task is still somewhere. |
| Dispatcher.ScanFinds | NET_DISK_TASK/SERVER/src/server.c:149-156 | A worker that looks for the slot whose flag it clears finds it, although main changes the table meanwhile. |
| Dispatcher.ScanIsClearFlag | NET_DISK_TASK/SERVER/src/server.c:225-232 | Undisturbed, the worker's search in single steps does what one search and one assignment do. |
| Dispatcher.MainLoop.constructor | NET_DISK_TASK/SERVER/src/server.c:3-42 | server_init yields the initial state of the step system: all slots free, two separate heap queues with a head node and no task. |
| Dispatcher.MainLoop.IsClientWork | NET_DISK_TASK/SERVER/src/server.c:63-74 | 1 for a busy connection, 0 for an idle one, -1 if and only if the descriptor is in no slot. |
| Dispatcher.MainLoop.GiveChildTask | NET_DISK_TASK/SERVER/src/main.c:32-57 | On the heap queues, gets and puts go to the end of the one, everything else to the end of the other, which the first one's nodes and tail do not touch. |
| Dispatcher.MainLoop.AcceptClient | NET_DISK_TASK/SERVER/src/main.c:110-135 | On the table and the heap queues: a connection whose first message arrives gets a slot with its flag set, and exactly its task is the last of the io queue for orders 4 and 5 and of the shell queue otherwise; without a message nothing changes. |
| Dispatcher.MainLoop.ClientReadable | NET_DISK_TASK/SERVER/src/main.c:172-211 | On the table and the heap queues: a message of an idle client sets its flag and is the last task of the io queue for orders 4 and 5 and of the shell queue otherwise; a busy client is skipped, and the end of the stream frees the slot. |
| Dispatcher.EveryMessageIsDispatched | NET_DISK_TASK/SERVER/src/main.c:110-211 | In every reachable state: after a whole message of an idle client or a new connection its flag is set and exactly that task is the last of the io queue for orders 4 and 5 and of the shell queue otherwise, the other queue, the workers and all other flags unchanged; a busy client's message stays in its socket; where nothing arrives the client is disconnected or not taken in. |
| Dispatcher.MessagesAreServedInOrder | NET_DISK_TASK/SERVER/src/main.c:32-213 | Over every run, also past the exit signal: the messages read for the one or the other kind of worker, in order, are those that such workers have begun with, in order, followed by those waiting in that queue. |
| Dispatcher.StepIsFirstInFirstOut | NET_DISK_TASK/SERVER/src/main.c:32-57 | The same for one step: what is read goes to the end of its queue, what a worker begins with comes from the front. |
| Dispatcher.AfterExit | NET_DISK_TASK/SERVER/src/main.c:136-171 | After the exit signal no step adds a task or a connection; of each queue what is left is at every moment the last part of the marker and the tasks that were waiting, so these are taken in order, and none before a worker of that queue has taken the marker and ended. |
| Dispatcher.MainLoop.TakeTask | NET_DISK_TASK/SERVER/src/server.c:97-118 | A worker takes the first task off the one heap queue, and ends at the marker or without a task; the other queue is not touched, and tails stay good wherever they are followed. |
| Dispatcher.MainLoop.FinishTask | NET_DISK_TASK/SERVER/src/server.c:149-156 | Clears the flag of the first slot with the descriptor, and of no other. |
| QueueSpec.FirstInFirstOut | NET_DISK_TASK/SERVER/src/work_queue.c:13-53 | In every sequence of inserts and pops the accepted tasks leave in order, none twice and none lost, with or without a capacity. |
| QueueSpec.PopsInOrder | NET_DISK_TASK/SERVER/src/work_queue.c:35-53 | Pops alone yield the contents in order and then nothing. |
| QueueSpec.ExitThenOldTasks | NET_DISK_TASK/SERVER/src/work_queue.c:55-65 | After the exit marker is put in front, pops yield the marker and then the old tasks in order. |
| WorkQueue.Queue.constructor | NET_DISK_TASK/SERVER/src/work_queue.c:3-11 | A head node, no tasks, and a good tail. |
| WorkQueue.Queue.Insert | NET_DISK_TASK/SERVER/src/work_queue.c:13-33 | Appends the node on the heap, or rejects and changes nothing if and only if the queue is full; a stale tail is never followed. |
| WorkQueue.Queue.Pop | NET_DISK_TASK/SERVER/src/work_queue.c:35-53 | Hands out the first node, out of the list for good, or NULL from an empty queue; tail stays on the popped node when it was the last one, and the queue works on. |
| WorkQueue.Queue.PopInto | thread_poll_task/SERVER_QUIT_WAIT_TASK/src/work_queue.c:31-48 | The same, but an empty queue leaves the caller's variable as it was. |
| WorkQueue.Queue.HeadInsertExit | NET_DISK_TASK/SERVER/src/work_queue.c:55-65 | Puts a new marker node in front of the unchanged others; tail is good afterwards if and only if the queue was not empty. |
| WorkQueue.Queue.Delete | NET_DISK_TASK/SERVER/src/work_queue.c:67-80 | Frees every remaining node and the head node, each exactly once, also with a stale tail. |
| BoundedBuffer.RunKeepsInv | wangdao/20180707/cus_pro_queue.c:33-66 | For any numbers of producers and consumers, with barging and spurious wakeups: if a producer waits, the free slots are at most the awakened producers; if a consumer waits, the items are at most the awakened consumers. |
| BoundedBuffer.ConsumedIsPrefix | wangdao/20180707/cus_pro_queue.c:33-66 | In every run what was consumed is a prefix of what was produced. |
| BoundedBuffer.NoLostWakeup | wangdao/20180707/cus_pro_queue.c:33-66 | A thread that waits although it could go on has an awakened thread of its kind in front of it. |
| BoundedBuffer.NoDeadlock | wangdao/20180707/cus_pro_queue.c:33-66 | While some producer and some consumer are unfinished, some thread can run. |
| BoundedBuffer.RunnableCanPass | wangdao/20180707/cus_pro_queue.c:33-66 | A thread that can run can take its step whatever the others do. |
| BoundedBuffer.RunsAreBounded | wangdao/20180707/cus_pro_queue.c:33-94 | Apart from spurious wakeups no run is longer than a bound given by the work to do. |
| BoundedBuffer.OneToOneCorrect | wangdao/20180707/cus_pro_queue.c:68-94 | In every interleaving of one producer and one consumer the consumer has a prefix of 0 to 49 and OVER, all of it when it stops, and until both stop one can run. |
| RingBuffer.WindowFull | wangdao/20180707/cus_pro_queue.c:33-66 | The tests for full and empty on the two positions are exactly BUFFER_SIZE - 1 items and none, across all wraparounds. |
| RingBuffer.ProdCons.Put | wangdao/20180707/cus_pro_queue.c:33-48 | One pass waits if and only if BUFFER_SIZE - 1 items are stored, and otherwise appends in place. |
| RingBuffer.ProdCons.Get | wangdao/20180707/cus_pro_queue.c:50-66 | One pass waits if and only if nothing is stored, and otherwise takes the oldest item. |
| ThreadPool.StopCannotHang | thread_poll_task/SERVER_QUIT_WAIT_TASK/src/main.c:98-117 | From any reachable state and for any schedule, after the flag is cleared no run is longer than eight steps per worker, and until main returns there is a next step. |
| ThreadPool.StopNeverHangs | thread_poll_task/SERVER_QUIT_WAIT_TASK/src/main.c:109-114 | Until main returns, some thread of the stopping pool has a next step. |
| ThreadPool.StopDecreases | thread_poll_task/SERVER_QUIT_WAIT_TASK/src/main.c:98-117 | Every step of any thread after the flag is cleared decreases one measure. |
| ThreadPool.ReadFindsId | thread_poll_task/SERVER_QUIT_WAIT_TASK/src/main.c:109-114 | When main reads, an id is in the pipe or a worker is on its way to writing one and does not wait. |
| ThreadPool.ReturnedIsClean | thread_poll_task/SERVER_QUIT_WAIT_TASK/src/main.c:15-117 | When main returns, all workers have been joined, none twice, none is transferring; the inserted tasks are the popped ones in order followed by those freed with the queue, and each popped one was transferred exactly once. |
| ThreadPool.RunKeepsInv | thread_poll_task/SERVER_QUIT_WAIT_TASK/src/main.c:15-117 | In every run: ids written are those of distinct workers that are done, each round's signal has taken one worker out of waiting for good, and popped tasks are the transferred and the held ones. |
| ThreadPool.StartedInv | thread_poll_task/SERVER_QUIT_WAIT_TASK/src/factory.c:4-31 | The started pool satisfies the invariant, for any number of workers. |
| Wire.DecodeEncode | NET_DISK_TASK/SERVER/include/server.h:32-38 | A message survives its 1016-byte image. |
| SocketLoops.SendN | NET_DISK_TASK/SERVER/src/r_s_api.c:6-27 | What goes out is a prefix of the buffer, all of it if and only if the result is 1, which harmless calls reach. |
| SocketLoops.RecvN | NET_DISK_TASK/SERVER/src/r_s_api.c:29-50 | The buffer's front is what arrived, in place, the rest is untouched, and the result is 1 if and only if it is filled. |
| SocketLoops.RecvFile | NET_DISK_TASK/CLIENT/src/client.c:273-346 | The receive loop appends to the local file what the specification function says, with its result. |
| SocketLoops.ReceiveStaysPrefix | NET_DISK_TASK/CLIENT/src/client.c:304-343 | Whatever arrives of the rest and whatever recv returns, a local prefix stays a prefix and does not shrink; the result is 1 if and only if it is the server's file. |
| SocketLoops.ReceiveCompletes | NET_DISK_TASK/CLIENT/src/client.c:304-343 | When the whole rest arrives and no error is final, the file is completed. |
| SocketLoops.ResumedStaysPrefix | NET_DISK_TASK/CLIENT/src/client.c:273-346 | Over any sequence of attempts, each cut at any byte, the local copy stays a prefix and never shrinks. |
| SocketLoops.ResumedCompletes | NET_DISK_TASK/CLIENT/src/client.c:273-346 | After any such history the next recv_file returns 1 only with the server's file, and does return 1 if nothing breaks and something was missing. |
| Exchange.FinishedExchange | NET_DISK_TASK/SERVER/src/server.c:1024-1138 | When both ends of a gets or puts have finished: nothing more than the announced size is in the copy or on the stream if and only if no data followed, or it started at offset 0, or the sender's file has not grown; a copy that was a prefix of the file sendfile finds then is that file, and otherwise begins with as much of it as was announced. |
| Exchange.BrokenExchange | NET_DISK_TASK/SERVER/src/server.c:1024-1138 | Cut at any moment, the copy is no shorter and still a prefix of the sender's file, of the size announced unless that file has grown; and both ends that have decided whether data follows have decided alike. |
| Exchange.GrownFileSpills | NET_DISK_TASK/SERVER/src/server.c:1043 | For every resumed transfer of a file that has grown since its size was taken there is a run in which both ends finish and more bytes than announced are in the copy or left on the stream. |
| Exchange.UninterruptedFinishes | NET_DISK_TASK/SERVER/src/server.c:1024-1138 | Every schedule of sends and receives of any sizes ends within a bound, and until both ends have finished one of them can move a byte. |
| Exchange.NeverStuck | NET_DISK_TASK/SERVER/src/server.c:1024-1138 | Until both ends have finished one of them can move a byte. |
| Exchange.RunKeepsInv | NET_DISK_TASK/CLIENT/src/client.c:243-346 | At every moment what an end has heard, what is on the stream and what its peer still owes make up the peer's message and the data, in both directions. |
| Framing.ParsePrinted | thread_poll_task/SERVER_QUIT_WAIT_TASK/src/tran_file.c:28-36 | For every file and every way of reading it, the frames parse back to exactly the file with nothing left over. |
| Framing.ParseCut | thread_poll_task/client/src/client.c:36-62 | Frames cut at any byte parse to a prefix of the file, and no length in them exceeds the buffer. |
| Framing.TranFile | thread_poll_task/SERVER_QUIT_WAIT_TASK/src/tran_file.c:2-40 | With one buffer used for every frame and any sizes of reads and sends, the stream is the name, the size, the content frames and the empty frame. |
| Framing.SendN | thread_poll_task/SERVER_QUIT_WAIT_TASK/src/tran_file.c:46-61 | However much each send takes, all of the buffer goes out once and in order. |
| Framing.RecvN | thread_poll_task/client/src/r_s_api.c:20-34 | Fills the front of the buffer from the stream, or answers -2 if and only if the stream ends before. |
| Framing.ReceiveBody | thread_poll_task/client/src/client.c:36-62 | The receiving loop writes what the parser says, counts its bytes and stops where the parser stops, whatever recv returns. |
| Framing.FromIsSuffix | thread_poll_task/client/src/client.c:36-62 | The parser by positions of the stream is the parser of what is left of it. |
| Framing.Client | thread_poll_task/client/src/client.c:20-64 | The client learns the name and the size, writes exactly the server's bytes from a complete stream, counts the announced size and leaves nothing unread; from a stream cut after the size frame it writes a prefix. |
| Framing.OverwriteExactly | thread_poll_task/client/src/client.c:26-27 | The file on disk is the server's if and only if what was there before was not longer. |
| BreadthFirst.BfsFile | wangdao/20180624/BFS_File.c:43-83 | Terminates on every tree; prints the level order, or, exactly when some directory cannot be opened or the root is a plain file, a prefix of it. The queue always holds the rest of one level followed by a part of the next. |
| BreadthFirst.QueueSpansTwoLevels | wangdao/20180624/BFS_File.c:55-80 | At every turn of the loop the heights in the queue are sorted and span at most two levels. |
| BreadthFirst.LevelOrderPrintsAll | wangdao/20180624/BFS_File.c:43-83 | The level order has every entry of the tree exactly once. |
| BreadthFirst.LevelOrderSorted | wangdao/20180624/BFS_File.c:62-63 | The heights along the level order never decrease. |
| BreadthFirst.PrintDir | wangdao/20180621/finddir.c:5-32 | The recursive loop prints the depth-first listing. |
| BreadthFirst.FindDir | wangdao/20180621/finddir.c:34-40 | The depth-first program prints the path it is given and below it that listing. |
| BreadthFirst.DepthFirstIsPreOrder | wangdao/20180621/finddir.c:5-32 | The depth-first listing is the pre-order of the tree without the dot entries. |
| BreadthFirst.SameLines | wangdao/20180624/BFS_File.c:43-83 | Without the dot entries the level order is a permutation of the depth-first listing. |
| BreadthFirst.Compare | wangdao/20180624/BFS_File.c:43-83 | So the two programs print the same lines for the same readable directory. |
| BreadthFirst.DotRoot | wangdao/20180624/BFS_File.c:64 | Started at `.` or `..` the breadth-first program prints one line and looks no further. |
| Sorting.BuildSorts | wangdao/20180621/ls_task/LinkList.c:57-87 | Inserting the inputs in any order yields a sorted permutation in which equal names keep their input order. |
| Sorting.InsertKeepsSorted | wangdao/20180621/ls_task/LinkList.c:57-87 | Insertion keeps a list sorted by any strict order. |
| Sorting.InsertIsStable | wangdao/20180621/ls_task/LinkList.c:57-87 | A new element goes behind all that have its name. |
| Sorting.CompareIsStrictOrder | wangdao/20180621/ls_task/ls.c:4-10 | Comparing names with strcmp is irreflexive and transitive. |
| Sorting.LessTotal | wangdao/20180621/ls_task/ls.c:4-10 | Of two different names one comes first. |
| Sorting.LessExactly | wangdao/20180621/ls_task/ls.c:4-10 | The comparison is decided at the first place where two names differ: the one that ends there or has the smaller character comes first. |
| Sorting.RemoveAt | wangdao/20180621/ls_task/LinkList.c:88-104 | Deleting by key takes out exactly the first match, or nothing. |
| Sorting.RemoveKeepsSorted | wangdao/20180621/ls_task/LinkList.c:88-104 | What is left is sorted, at most one element shorter, and the same if and only if nothing matched. |
| LinkedList.List.HeadInsert | wangdao/20180621/ls_task/LinkList.c:26-40 | On the heap, the element is in front and rear is the last reachable node. |
| LinkedList.List.TailInsert | wangdao/20180621/ls_task/LinkList.c:41-56 | On the heap, the element is at the end and rear points to it. |
| LinkedList.List.SortInsert | wangdao/20180621/ls_task/LinkList.c:57-87 | On the heap and for any comparison, the element goes in front of the first one it compares less than; rear is the last reachable node. |
| LinkedList.List.DeleteByKey | wangdao/20180621/ls_task/LinkList.c:88-104 | On the heap, exactly the first match goes, the order and rear are kept, and the result says whether there was one. |
| LinkedList.List.Clear | wangdao/20180621/ls_task/LinkList.c:126-138 | Frees the nodes in order, each once, and leaves a proper empty list. |
| LinkedList.ListDirectory | wangdao/20180621/ls_task/ls.c:131-145 | The readdir loop builds on the heap the list of all entries inserted in turn. |
| Counter.AttainableExactly | wangdao/20180626/task7.c:36-44 | Two unlocked loops of N increments can end at v if and only if 2 <= v <= 2N, for N of two or more (and N <= v <= 2N below), by constructed schedules. |
| Counter.RunKeepsInv | wangdao/20180626/task7.c:36-44 | In every interleaving the number is at most the stores done, positive after the first, and at least 2 at the end. |
| Counter.Attain | wangdao/20180626/task7.c:36-44 | A schedule for every value: all increments are lost but t, u and two. |
| LockedCounter.AlwaysTwiceN | wangdao/20180627/task1.c:21-36 | Under the semaphore at most one process is inside, no run is stuck before the end, every run ends after 8N steps, and it ends at exactly 2N. |
| CommandLine.GetInput | NET_DISK_TASK/CLIENT/src/client.c:3-21 | Copies the next word out and zeroes it, with what ended it, in place; everything else in the buffer stays. |
| CommandLine.Command.GetCommandId | NET_DISK_TASK/CLIENT/src/client.c:23-41 | The place of the word in the command list, or -1 if and only if it is not there. |
| CommandLine.Command.GetUserOrder | NET_DISK_TASK/CLIENT/src/client.c:43-67 | The command and its option, none for pwd; a word that is no command leaves the option alone. |
| CommandLine.PlacesOfCommands | NET_DISK_TASK/CLIENT/src/main.c:6 | In the client's command list the order without an option is pwd, and orders 4 and 5 are gets and puts. |
| CommandLine.ReadsWhatIsTyped | NET_DISK_TASK/CLIENT/src/client.c:3-67 | Whatever blanks stand in front of a command and its option, the line is read back as that command and that option. |

## Left out

- ReadYourWrites.ReadYourWrites: what it asks of the steps up to the upload's end is needed: without it the code loses files, and `ReadYourWritesExactly`, `OpenSettlesExactly` and `StaysSettledExactly` give the exact conditions.
- NetDiskFiles.RunKeepsFiles: assumes that no upload is accepted while another one in progress has the same target, or the same digest with content still missing; `NetDiskLimits.AcceptExactly` proves that this is exact.
- Registrations.RunKeepsDirs: assumes that registrations of one name do not overlap; `RegistExactly` proves that this is exact.
- Server.Server.DoTaskLs: the reply is the set of rows, not their text, which is cut by nothing here and by 1000 bytes there.
- PathWalk.WalkedAtOnce: the tables have no two directories of one name in one place; a walk during a registration race may find either of the two.
- Framing.Client: the cut is after the size frame; a stream that ends earlier, or a recv that fails with -1, leaves lengths in the client that nobody set.
- Framing.RecvN: recv returning -1 is not modelled.
- Framing.TranFile: a read of the file that fails, and a send that fails, which leaves a cut stream as in Framing.ParseCut.
- BreadthFirst.BfsFile: its queue is a sequence here; linking and freeing its nodes is not modelled (the list of `ls` and the work queue are on the heap). Paths given to opendir are places in the tree.
- LinkedList.List.DeleteByKey: the message printed; the nodes freed are those unlinked.
- LinkedList.List.SortInsert: running out of memory.
- LinkedList.ListDirectory: an entry whose stat fails, at which ls.c gives up.
- CommandLine.GetInput: a line without a word where one is read, which makes the loop run past the input, and a word too long for its buffer, on which the loop does not end, are excluded.
- ThreadPool.StopCannotHang: one interrupt only.
- Dispatcher.ExclusiveOwnership: each event of main is one step, and the shutdown is modelled for safety only: one exit marker and a broadcast do not reach a worker that is busy then, so whether all workers end is not claimed.
- Counters and lengths are unbounded; lengths of 2^31 and more, and file sizes beyond a long, are not modelled.
- What C buffers and varchar columns cut off (names of 20, paths of 512, messages of 1000 bytes).
- `mysql_use_result` fetched outside the lock, connection errors of the database, and the file_size column.
- The second half of an accepted gets is `Exchange` with the server as sender, of an accepted puts with the client as sender; the client's reaction to a refusal is printing only.
- user_login's menu, logging, progress output, ctime and mode texts, printf widths.
- `main` of cus_pro_queue.c, which starts both threads into one variable and joins another that was never set.
- The memory that InitList allocates for rear and loses.
- listDeleteByNum, the group chat, printFile.c, the ticket sale, the process pool and the other variants of the pool: they do not keep the obvious property, or repeat what is here with weaker guarantees.
- mkdir and rmdir, which the readme lists and the server does not have.
