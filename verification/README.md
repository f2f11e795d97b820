# Geeboard agent: verified model

A Dafny model of the parts of the Geeboard node agent (and two pieces of its panel) where a mistake loses a world, locks a
machine out, or lets something out of its directory. Every property below is for all inputs, all interleavings or all
crashes of the model named with it.

`dafny verify dfyconfig.toml` checks the whole project.

## What is modelled

| Files | Part of the agent |
|---|---|
| `Bytes` | bytes, numbers as text, splitting and joining |
| `TarFormat`, `Pax`, `ArchivePath` | one header block, one extended record, one entry's path |
| `TarWriter`, `TarReader`, `TarRoundTrip`, `AnyArchive` | the archive generator, the streaming reader, both together, and the reader on what anybody wrote |
| `Room` | what is kept free, what lets a restore in, what stops an unpacking |
| `LeftoverNames`, `Exchange`, `Sweep`, `Restore` | a restore by two renames, the start-up sweep, and what a failure may say |
| `Publication` | an archive written under another name and linked to its own |
| `Beneath`, `BeneathPaths`, `BeneathStill` | the walk to a path through held directories: under interference, what the text of a path means, and on a still tree |
| `Frames`, `Times`, `Console` | Docker's frames, its timestamps, and the followed console |
| `Pool`, `Gate` | `mapPool` and `gate` |
| `Terminal`, `Descendants` | terminal sessions, and the processes a shell started |
| `Pulls` | when an image pull has moved, and when it is called stalled |
| `Rotation` | the two-step change of the agent's token |
| `Der` | the certificate writer's DER |

Code that works in place is a class, or a method over an array, proved against a function that says what it computes; what
is promised is proved about the function. Machines with several actors (lanes, callers, timers, requests, a panel and a
restarting agent) are step functions, and the theorems are about every sequence of steps; a step that cannot happen changes
nothing, so every sequence is a run.

Gzip and SHA-256 are transparent. A file system is a map from paths to bytes, or from names to directories. A call that may fail takes
its outcome as a parameter, so a theorem about all parameters is about every pattern of failures. A crash stops at any state
a directory has been in: an operation of the disk is a function that gives every such state (`Exchange.Ran`), and the
methods are proved to go through them. Names are bytes, as Linux has them, and text is UTF-8.

## What is assumed

- Exchange: the random suffix of a restore is not in use, names under the data root that look like leavings are of servers
  with a server's name (`Sweep.Ours`), and no older world of the same server is set aside when a restore begins
  (`NoAside`). The last one is needed: `Sweep.StaleAsideWins` is the run that loses without it.
- Console: the log only grows, its times are strictly ascending and have at most nine fraction digits, and each stream
  brings some beginning of what it was asked for. Docker's `since` is the whole second of the last line sent, and the first
  nineteen bytes of a timestamp name it (`Times.SecondsInOrder`).
- Terminal: session ids, timers and shells are never the same twice, and the clock does not pass a timer that is due.
- Pulls, for the bounds: a layer has one total, and its counts stay within its size. How often a state is taken back is counted.
- Rotation: rotations come one at a time, and the panel's new token is one it never made before.
- Beneath: the adversary moves only inodes of the server's own subtree; the still tree is changed by the walk alone.

## Where the code does less than its words

Each of these is proved, with the exact condition.

- A size comes back from its header exactly below 8^12 bytes (`TarFormat.SizeFieldReadsBack`).
- A top-level name that begins with a backslash is restored under another name (`ArchivePath.LandsIffNoBackslash`).
- The estimate of a restore covers its archive exactly below 4 GiB, or when the archive does not compress
  (`Room.EstimateCovers`).
- The start-up sweep drops a staging directory exactly when nothing in it is dated after the sweep's own clock
  (`Sweep.WholeSweep`).
- A restore that says the world is incomplete has left it as it was exactly when its first rename failed
  (`Restore.UntouchedButNotSaid`).
- A whole archive is taken for a leaving by the sweep exactly when its own name contains `.tar.gz.partial.`, and it is replaced
  exactly by the rename that stands in where hard links are refused (`Publication.WhatBecomesOfAnArchive`; that both happen:
  `Publication.AWholeArchiveMayLookLeftBehind`, `Publication.ARenameReplaces`).
- A request such as `./` names the root by the component `.` (`BeneathStill.DotIsTheRootWithASlash`).
- Two log lines with one time: the second is lost when a stream breaks between them, and only then
  (`Console.NothingIsLostIff`).
- The gate gives places in order of arrival; work begins in that order exactly when no newcomer finds a place free while an
  earlier caller, given one, has not resumed (`Gate.BeginsInOrderIff`; that it happens: `Gate.ANewcomerMayBeginFirst`).
- A session has no timer exactly when its stream refused the first frame and nobody used it since
  (`Terminal.TimersAreTheSessions`; that it happens: `Terminal.ARefusedStreamIsForgotten`).
- A pull can be moved for ever, and only by taking a layer back to an earlier state (`Pulls.DisorderMovesForEver`,
  `Pulls.OnlyATakenBackState`).
- The panel is locked out, for good, exactly when two begins in a row lose their answers (`Rotation.PanelIsLetInIff`,
  `Rotation.LockedOutForGood`).
- DER contents read back exactly below 65536 octets, and identifiers exactly when their first octet is below 128 and their arcs
  below 2^31 (`Der.ReadsBackIff`, `Der.OidReadsBackIff`).

## Model

| member | source | states |
|---|---|---|
| `Pax.PaxLength` | daemon/src/backups.ts:382-389 | the loop that tries until the length stops changing ends for every body, at the least length that counts the body and its own digits |
| `Pax.WritePaxRecord` | daemon/src/backups.ts:382-389 | the record written is the one with that length |
| `Pax.NameFromMetadata` | daemon/src/backups.ts:845-864 | the scan ends on every payload, as the record-by-record reading says: a path, none, or a malformed header |
| `Pax.ReadRecord` | daemon/src/backups.ts:853-861 | a record that is taken moves the scan on and ends inside the payload |
| `Pax.TakenIff` | daemon/src/backups.ts:845-864 | an extended header is taken if and only if all of it is records that each cover themselves; otherwise it is malformed |
| `Pax.RecordReadsBack` | daemon/src/backups.ts:382-389 | a written record anywhere in a payload is read whole, whatever bytes its value holds |
| `Pax.PathReadsBack` | daemon/src/backups.ts:845-864 | the path of a written record comes back for every value, with spaces, equals signs and newlines |
| `Pax.RecordsReadBack` | daemon/src/backups.ts:845-864 | of several records, the last path is the one |
| `TarFormat.Header` | daemon/src/backups.ts:396-417 | the block filled in place is the ustar header, field by field |
| `TarFormat.WriteAt` | daemon/src/backups.ts:396-417 | a field's write takes as much as fits and leaves the rest of the block alone |
| `TarFormat.ChecksumHolds` | daemon/src/backups.ts:409-415 | the checksum field reads as the sum of the block with that field as spaces |
| `TarFormat.SizeFieldReadsBack` | daemon/src/backups.ts:419-421 | a size reads back if and only if it is below 8^12 |
| `TarFormat.HeaderSizeReadsBack` | daemon/src/backups.ts:396-417 | the same of a whole header |
| `TarFormat.HeaderNameReadsBack` | daemon/src/backups.ts:363-421 | a name that fits the field comes back |
| `TarFormat.HeaderIsNotTheEnd` | daemon/src/backups.ts:363-421 | no header is taken for the end marker, also when a long name is cut inside a character |
| `TarFormat.HeaderLayout` | daemon/src/backups.ts:396-417 | every field at its own offset: mode, owners, time, kind, magic and version, and zeros everywhere else |
| `TarFormat.FitsToACharacter` | daemon/src/backups.ts:398-401 | a long name is cut at the last place in the field that is not inside a character |
| `TarFormat.OtherSizes` | daemon/src/backups.ts:769-770 | a size written by any tool: blanks, a sign, octal digits, and whatever follows |
| `TarFormat.CutIs` | daemon/src/backups.ts:768-768 | a text field ends at the first NUL that no line break follows |
| `ArchivePath.LandsBelow` | daemon/src/backups.ts:869-877 | whatever name an archive holds, the entry lands below the directory, on plain components |
| `ArchivePath.JoinFromTheEnd` | daemon/src/backups.ts:869-877 | an entry lands at the names of both paths that no later ".." takes back, counted from the end, and is refused exactly when they do not begin with the directory's |
| `ArchivePath.WrittenNameLands` | daemon/src/backups.ts:869-877 | a written path lands where it was taken from, as a file and as a directory |
| `ArchivePath.LandsIffNoBackslash` | daemon/src/backups.ts:869-877 | if and only if it does not begin with a backslash |
| `TarWriter.Writer.TarChunks` | daemon/src/backups.ts:242-292 | the chunks, end to end, are the archive of the entries as they were found: padded where a file shrank, cut where it grew, skipped where it was gone; and the warnings say which, each entry at most once and in the order of the walk |
| `TarWriter.WhatIsSaid` | daemon/src/backups.ts:253-282 | a path is in a warning exactly when that happened to it: not walked, not opened, no file any more, shrunk to so many bytes, grown; and there is none exactly when everything was read whole |
| `TarWriter.Writer.YieldPayload` | daemon/src/backups.ts:265-287 | a payload is exactly the size the file was opened with, and its padding |
| `TarWriter.Writer.TarChunksThatThrow` | daemon/src/backups.ts:265-292 | a read that fails ends the stream where it is: no rest of the file, no end of the archive |
| `TarReader.Unpacker.Turn` | daemon/src/backups.ts:726-818 | one turn of the loop over what is pending is one step of the reader |
| `TarReader.Unpacker.Consume` | daemon/src/backups.ts:726-818 | a chunk moves the reader as far as it goes |
| `TarReader.Unpacker.ExtractInto` | daemon/src/backups.ts:690-835 | the whole stream ends as the reader's verdict says |
| `TarReader.DrainWithMore` | daemon/src/backups.ts:726-818 | reading what is here and then more is reading both |
| `TarReader.ChunksDoNotMatter` | daemon/src/backups.ts:726-818 | from any resting state, any cut of the stream ends as the whole does |
| `TarReader.CutsDoNotMatter` | daemon/src/backups.ts:690-835 | the result depends on the bytes of the stream alone |
| `AnyArchive.HeaderNameIs` | daemon/src/backups.ts:768-792 | an entry's name as any tool may have written it: the field, below the prefix when the header is USTAR's and has one |
| `AnyArchive.MetadataIsNoEntry` | daemon/src/backups.ts:773-792 | a PAX, global or GNU header makes nothing and is refused above 1 MiB; any other is an entry, under the name that waits or its own |
| `AnyArchive.MetadataEnds` | daemon/src/backups.ts:745-756 | the name the next entry gets from each of them, and the name that waited when they give none |
| `AnyArchive.EntryIs` | daemon/src/backups.ts:795-813 | what an entry makes, and when a file in the way or a directory in its place ends the unpacking |
| `AnyArchive.AnyStream` | daemon/src/backups.ts:690-835 | whatever the bytes and the chunks: after each, what was unpacked is a tree of plain paths, no file has become a directory or the reverse, and the reader holds less than a block, and 1 MiB of metadata at most |
| `AnyArchive.AnyArchiveIsATree` | daemon/src/backups.ts:690-835 | so is the result of any archive that is taken |
| `TarRoundTrip.EntryRead` | daemon/src/backups.ts:690-835 | one archived entry, short name or long, is read as what it was |
| `TarRoundTrip.EntriesRead` | daemon/src/backups.ts:242-292 | and all of them in a row |
| `TarRoundTrip.RoundTrip` | daemon/src/backups.ts:690-835 | an archive cut into chunks anywhere unpacks to exactly its entries |
| `TarRoundTrip.WorldRoundTrip` | daemon/src/backups.ts:242-292 | of a world that changes while it is read: every path holds what it held when it was read, no other path holds anything |
| `TarRoundTrip.WhatComesOut` | daemon/src/backups.ts:242-292 | path by path: what was read of each entry, zeros where it shrank, nothing besides, and the files are counted |
| `TarRoundTrip.NoWarningIffComplete` | daemon/src/backups.ts:242-292 | a backup warns of nothing if and only if nothing of the world was missed, and then every file comes back byte for byte |
| `TarRoundTrip.HeadersCarryModeAndTime` | daemon/src/backups.ts:363-380 | an entry's own header, the last before its bytes, says its kind, its mode and its time |
| `TarRoundTrip.LongNamesHaveARecord` | daemon/src/backups.ts:363-389 | in front of a long name's header, one of its own and the record that spells the name, byte for byte |
| `TarRoundTrip.OrdinaryEntriesAreArchivable` | daemon/src/backups.ts:363-421 | what the theorems ask of an entry holds of any plain path that is UTF-8, with no backslash in front and less than 64 GiB |
| `TarRoundTrip.StoppedBetweenEntries` | daemon/src/backups.ts:829-833 | a stream that stops between entries or in a header is said to have no end marker |
| `TarRoundTrip.StoppedInAFile` | daemon/src/backups.ts:829-833 | one that stops in a file or its padding is said to have ended part way |
| `TarRoundTrip.NoTruncatedArchivePasses` | daemon/src/backups.ts:726-834 | a stream cut anywhere passes if and only if the first end block is whole, and then it holds the full tree |
| `TarRoundTrip.BrokenOffIsAPart` | daemon/src/backups.ts:265-292 | the stream of a generator that threw is an archive up to the last byte that was read |
| `TarRoundTrip.BrokenOffDoesNotPass` | daemon/src/backups.ts:726-834 | such a stream is a part of an archive, and no reader takes it |
| `Room.EstimateCovers` | daemon/src/backups.ts:640-649 | when the estimate is at least what is unpacked, both ways |
| `Room.FloorIsBetween` | daemon/src/backups.ts:110-117 | the floor without a setting is between 2 and 10 GiB, and when it is either |
| `Room.TheLine` | daemon/src/backups.ts:708-709 | the line that stops an unpacking: 512 MiB, or the setting when it is less |
| `Room.SwappedLeavesTheFloor` | daemon/src/backups.ts:545-566 | a swapped restore is let in if and only if its estimate leaves the floor free, in bytes |
| `Room.InPlaceIffNotStopped` | daemon/src/backups.ts:545-566 | the restore in place is let in if and only if no unpacking of its estimate would be stopped in the room the world leaves |
| `Room.Unpacking.Put` | daemon/src/backups.ts:711-719 | one write and its look at the disk, as the function says |
| `Room.Unpacking.PutAll` | daemon/src/backups.ts:711-719 | a whole unpacking, up to the write that stops it |
| `Room.NeverFarBelow` | daemon/src/backups.ts:711-719 | from any look to the next: stopped only below the floor, everything written when it was not |
| `Room.UnpackingStaysClose` | daemon/src/backups.ts:708-719 | with nobody else writing, never more than one interval and one chunk below the floor; and not stopped when what is unpacked leaves the floor free |
| `Room.LetInIsNotStopped` | daemon/src/backups.ts:545-566 | a restore let in by its check, in either mode, and no larger than its estimate never trips the unpacking's floor |
| `LeftoverNames.NamesReadBack` | daemon/src/leftovers.ts:84-92 | the sweep reads a restore's names as that server's, and a server's own name as neither |
| `LeftoverNames.ClassifyIff` | daemon/src/leftovers.ts:84-92 | which names the sweep takes for which, and for what server: any text, the marker, hexadecimal digits to the end |
| `Exchange.DataRoot.Fill` | daemon/src/backups.ts:582-583 | writing into a directory: every part of it is a state a kill may stop at |
| `Exchange.DataRoot.Remove` | daemon/src/backups.ts:585-606 | and so is every part of a removal |
| `Exchange.RestoreSwapped` | daemon/src/backups.ts:569-611 | what it leaves, what it says and every state on the way are those of the function, whichever calls fail |
| `Exchange.HowItEnds` | daemon/src/backups.ts:569-611 | each ending if and only if its calls went so, and what is left where; what "untouched" says is true |
| `Exchange.EveryStateIsSafe` | daemon/src/backups.ts:569-611 | at every state, extraction and removal included, the server has its whole old world or the whole new one, in its place or set aside |
| `Exchange.WhereItMayBeKilled` | daemon/src/backups.ts:582-606 | those states include every part unpacked, the gap between the renames, and every part removed |
| `Exchange.Swap` | daemon/src/backups.ts:589-610 | the two renames, the putting back and the removal are those of the function |
| `Exchange.SwapFacts` | daemon/src/backups.ts:589-610 | which ending, and what is left at each of the three names |
| `Exchange.RenamesFacts` | daemon/src/backups.ts:590-592 | both renames go through if and only if the world could be moved aside and the new one put in its place; otherwise nothing moved or the world is aside |
| `Exchange.PutBackFacts` | daemon/src/backups.ts:593-602 | a failed exchange: the old world is back, or is whole where it was set aside |
| `Sweep.Sweeper.Drop` | daemon/src/leftovers.ts:64-69 | a leaving that is old enough is removed and listed as removed; a removal that fails ends the sweep |
| `Sweep.DropKeeps` | daemon/src/leftovers.ts:64-69 | whoever was safe stays so at every state of it, and it goes if and only if it is old enough |
| `Sweep.Sweeper.Visit` | daemon/src/leftovers.ts:84-102 | one name's calls are those of the function, and what was removed or brought back is reported |
| `Sweep.VisitKeeps` | daemon/src/leftovers.ts:84-102 | at one name: staging goes after six hours, a missing world comes back at once, an aside whose world is there goes after twenty-four, and at start-up nothing is waited for; safe stays safe at every state |
| `Sweep.Sweeper.SweepWorlds` | daemon/src/leftovers.ts:83-102 | what it leaves, whether it got to its end and every state on the way are those of the function, over any listing, and so is what it reports |
| `Sweep.WholeSweep` | daemon/src/leftovers.ts:83-102 | a sweep over a listing in any order gets to its end when its calls go through, brings back every missing world, and leaves exactly the staging younger than six hours and the asides younger than twenty-four that were not needed; at start-up what is dated after its clock |
| `Sweep.YoungOnesStay` | daemon/src/leftovers.ts:62-67 | what a live restore is unpacking or has set aside stays as it is at every state of a periodic sweep |
| `Sweep.ReportsWhatItDid` | daemon/src/leftovers.ts:58-107 | what is reported as removed is every leaving that went and was not moved back, what is reported as recovered every world that was missing and is there |
| `Sweep.KilledAnywhere` | daemon/src/backups.ts:569-611 | a restore killed at any state, any number of sweeps killed at any of theirs, one left alone: it gets to its end when its calls go through; then the whole old world or the whole new one, nothing left over when no input is dated after its clock, and every other server untouched |
| `Sweep.StaleAsideWins` | daemon/src/backups.ts:604-609 | the converse of the hypothesis: with any older aside, a restore that goes well but is killed between its renames, and a sweep that goes well, end with the older world |
| `Restore.RestoreInPlace` | daemon/src/backups.ts:613-624 | the in-place mode, call by call |
| `Restore.InPlaceEnds` | daemon/src/backups.ts:613-624 | restored, incomplete or without a code, each if and only if; it never says "untouched" |
| `Restore.RestoreArchive` | daemon/src/backups.ts:515-567 | the checks and the two modes, call by call |
| `Restore.ArchiveEnds` | daemon/src/backups.ts:515-567 | each ending in either mode, if and only if, over what was checked and how the calls went; "untouched" is true, and nothing is restored without its checksum and its mode's room |
| `Restore.RestoreBackup` | web/src/lib/backup-ops.ts:429-541 | done, unchanged, incomplete or unknown, each if and only if; a world called unchanged is unchanged |
| `Restore.UntouchedButNotSaid` | daemon/src/backups.ts:590-601 | a restore that says incomplete left the world as it was if and only if it was the first rename that failed |
| `Restore.OnlyWhatTheReaderTook` | daemon/src/backups.ts:580-592 | a swapped restore of a stream succeeds only when the reader takes all of it, and puts in place what the reader made |
| `Restore.TruncatedArchiveLeavesTheWorld` | daemon/src/backups.ts:580-587 | of an archive cut before its first end block was whole it says "untouched", and it is |
| `Restore.WhatWasArchivedComesBack` | daemon/src/backups.ts:569-611 | from a world that lived while it was archived to the restored directory: every path holds what it held when it was read |
| `Publication.PartialIsNoArtifact` | daemon/src/backups.ts:154-159 | a partial's name is never listed and always swept |
| `Publication.ArtifactIff` | daemon/src/backups.ts:75-82 | which names are listed: a letter or a digit, at most 120 more with dots, dashes and underscores, and the extension |
| `Publication.LooksLeftBehindIff` | daemon/src/leftovers.ts:74-74 | what the sweep takes for an unfinished archive: a name with the marker in it, anywhere |
| `Publication.AWholeArchiveMayLookLeftBehind` | daemon/src/leftovers.ts:72-76 | a listed name can look left behind |
| `Publication.StepKeeps` | daemon/src/backups.ts:174-226 | every step of every request, a kill and a sweep keep the files in order |
| `Publication.NoPartIsEverListed` | daemon/src/backups.ts:154-185 | at any moment, what is listed is as it was before or the whole of one request's archive of that name |
| `Publication.WhatARequestAdds` | daemon/src/backups.ts:154-226 | a request that goes well adds its whole archive and nothing else, with hard links or without; one whose name is taken changes nothing |
| `Publication.WhatAFailureLeaves` | daemon/src/backups.ts:178-184 | one that fails leaves nothing, and of one that was killed the sweep leaves nothing |
| `Publication.WhatBecomesOfAnArchive` | daemon/src/backups.ts:212-226 | in one step a listed archive is swept if and only if its name looks left behind, and changes if and only if the rename that stands in for a link puts another of that name over it |
| `Publication.OnlyARenameReplaces` | daemon/src/backups.ts:212-226 | over any run, a published archive stays as it is until one of those two happens to it |
| `Publication.ARenameReplaces` | daemon/src/backups.ts:222-223 | and with it, two requests for one name: the first replaces what the second published |
| `Beneath.StepIsContained` | daemon/src/beneath.ts:86-157 | one call, whatever the tree is at that moment, keeps the held directory inside |
| `Beneath.NeverLeavesTheServer` | daemon/src/beneath.ts:78-157 | whatever is done to the subtree between calls, the directory held and the one returned are the server's, and nothing opened is ".." |
| `Beneath.LinksLeadToNames` | daemon/src/beneath.ts:52-61 | what a link's target becomes never goes up |
| `Beneath.RequestsAreNames` | daemon/src/beneath.ts:64-70 | what a request becomes never goes up |
| `Beneath.FortyLinks` | daemon/src/beneath.ts:100-133 | forty links are followed, each from the root again, and the next is refused |
| `BeneathPaths.RequestFromTheEnd` | daemon/src/beneath.ts:63-69 | a request is refused for leading out if and only if somewhere on its way it would be above the root; of any other, what is walked is the names that no later ".." takes back |
| `BeneathPaths.SeparatorsAreOne` | daemon/src/beneath.ts:63-69 | a backslash is a slash, and a slash in front says nothing |
| `BeneathPaths.NamesAreThemselves` | daemon/src/beneath.ts:63-69 | a path of names is those names |
| `BeneathPaths.UpUndoesAName` | daemon/src/beneath.ts:63-69 | a name and a ".." after it change nothing, wherever they stand |
| `BeneathPaths.RelativeLink` | daemon/src/beneath.ts:52-60 | where a relative target leads from the link's directory, and exactly when it is refused |
| `BeneathPaths.AbsoluteLink` | daemon/src/beneath.ts:52-57 | an absolute one leads to its own names below the root's real path, and is refused when it does not begin with it |
| `BeneathPaths.LinkGoesUp` | daemon/src/beneath.ts:52-60 | so many ".." and then names: that many directories up, and refused when there are not so many |
| `BeneathStill.Locate` | daemon/src/beneath.ts:78-157 | on a still tree the walk ends, and its restarts from the root answer what a resolver that continues in place answers, having made the same directories |
| `BeneathStill.AskedByItsPath` | daemon/src/beneath.ts:86-157 | a path along directories is answered with the last of them and the name in it |
| `BeneathStill.AskedThrough` | daemon/src/beneath.ts:97-122 | through something missing: refused, or made; through a file: refused as no directory |
| `BeneathStill.Rewalk` | daemon/src/beneath.ts:86-122 | walking again along directories that were walked arrives where it was |
| `BeneathStill.LinkRestarts` | daemon/src/beneath.ts:105-106 | starting again from the root along a link's path is going on from where the paths part |
| `BeneathStill.OwnPathLeadsBack` | daemon/src/beneath.ts:52-61 | an empty component goes through the descriptor's own link and comes back to the same directory |
| `BeneathStill.DotIsTheRootWithASlash` | daemon/src/beneath.ts:64-70 | exactly which requests give a component "." |
| `Frames.Demultiplex` | daemon/src/docker.ts:169-185 | the lines of the whole frames, and how many bytes they were |
| `Frames.FrameReader.TakeAll` | daemon/src/docker.ts:191-197 | any stream, cut anywhere: the lines of one reading of the whole, and exactly the trailing partial frame held back |
| `Frames.DemuxWithMore` | daemon/src/docker.ts:191-197 | reading in two steps is reading at once |
| `Frames.PrefixReads` | daemon/src/docker.ts:165-185 | a stream of frames that stops anywhere gives the lines of the frames that arrived whole |
| `Frames.FrameGivesItsTexts` | daemon/src/docker.ts:169-185 | a frame gives the texts its payload closes, with CR LF or LF, and what comes after the last, each that is not empty, in order and as of its stream |
| `Frames.EveryPayloadIsTexts` | daemon/src/docker.ts:178-181 | and every payload is of that shape |
| `Times.LineSplits` | daemon/src/docker.ts:156-159 | a line as Docker sends it splits into its time and its text |
| `Times.SplitsIff` | daemon/src/docker.ts:156-159 | which lines have a time, and what of them is the time and what the text |
| `Times.OrderedTimeOf` | daemon/src/docker.ts:162-164 | a time with its trailing zeros cut is made the text with all nine digits |
| `Times.LessIff` | daemon/src/docker.ts:426-426 | the order compared by: the first place where two texts differ, and a beginning before the whole |
| `Times.TextOrderIsTimeOrder` | daemon/src/docker.ts:162-164 | the order of the texts is the order of the times |
| `Times.SecondsInOrder` | daemon/src/docker.ts:445-446 | what is not later is not in a later second, which the first nineteen bytes name |
| `Console.Follower.OnLine` | daemon/src/docker.ts:422-429 | one line: sent, dropped when it is not later than the cursor, or passed on without a time |
| `Console.Follower.Open` | daemon/src/docker.ts:406-437 | one stream, in any chunks, is its lines taken against the cursor it was opened with |
| `Console.Follower.Follow` | daemon/src/docker.ts:393-463 | stream after stream |
| `Console.EntriesTaken` | daemon/src/docker.ts:406-437 | a stream adds the entries later than its cursor, in order, and moves the cursor to the last |
| `Console.UntimedLinesPass` | daemon/src/docker.ts:423-426 | every line without a time is passed on as it is, in order, and moves no cursor |
| `Console.SinceIsARun` | daemon/src/docker.ts:439-446 | what is asked for from a line's own second is a run of the log that begins no later than the line |
| `Console.ExactlyOnce` | daemon/src/docker.ts:393-463 | over any streams, each broken anywhere, what was sent is one run of the log: no line twice, none left out, up to the end when the last stream was whole |
| `Console.NothingIsLostIff` | daemon/src/docker.ts:417-426 | with equal times allowed: a reconnect continues the run if and only if the next line is later than the last one sent |
| `Pool.Lanes.Continue` | web/src/domain/concurrency.ts:11-20 | a lane goes on: the outcome in its slot, the next item claimed |
| `Pool.Lanes.Run` | web/src/domain/concurrency.ts:8-23 | any interleaving of the lanes is a run of the step function |
| `Pool.NeverMoreThanTheLimit` | web/src/domain/concurrency.ts:8-23 | items are claimed once each, in ascending order, and at most max(1, min(limit, n)) are awaited |
| `Pool.AsManyAsAllowed` | web/src/domain/concurrency.ts:8-23 | and that many are awaited as soon as every lane is entered |
| `Pool.EveryOutcomeInItsSlot` | web/src/domain/concurrency.ts:8-23 | at return every slot holds the outcome of its own item, whichever threw |
| `Pool.SomethingCanHappen` | web/src/domain/concurrency.ts:8-23 | until it returns, no lane waits for another |
| `Pool.ReturnsWhenAllSettled` | web/src/domain/concurrency.ts:21-22 | it returns if and only if every lane was entered and every item settled, after exactly that many events |
| `Gate.Places.Enter` | web/src/domain/concurrency.ts:36-38 | an arrival takes a free place, if and only if there is one, or joins the end of the line |
| `Gate.Places.GiveBack` | web/src/domain/concurrency.ts:31-35 | a returned place is the first waiter's, or is free |
| `Gate.Places.Run` | web/src/domain/concurrency.ts:26-45 | arrivals, resumptions and finishes in any order are a run of the step function |
| `Gate.NeverMoreThanTheLimit` | web/src/domain/concurrency.ts:26-45 | holders never exceed max(1, limit), somebody waits only while all places are held, and no wake-up is lost |
| `Gate.PlacesInOrderOfArrival` | web/src/domain/concurrency.ts:26-45 | places are given in order of arrival, as many as arrivals and returns allow |
| `Gate.TheKthWaiter` | web/src/domain/concurrency.ts:31-35 | the k-th in line has a place if and only if k places have been given back |
| `Gate.WhereEveryoneIs` | web/src/domain/concurrency.ts:36-44 | every caller has begun, waits, or has a place and is about to resume, each in one of the three |
| `Gate.BeginsInOrderIff` | web/src/domain/concurrency.ts:29-44 | work begins in order of arrival if and only if nobody arrived to a free place while a call already given one was still to resume |
| `Gate.WaitersKeepTheirOrder` | web/src/domain/concurrency.ts:31-38 | those who waited begin in the order they arrived in, whoever overtakes them |
| `Gate.ANewcomerMayBeginFirst` | web/src/domain/concurrency.ts:29-37 | a run in which somebody is overtaken |
| `Terminal.TerminalSessions.Open` | daemon/src/terminal.ts:352-383 | a slot is taken if and only if the terminal is on and one is free |
| `Terminal.TerminalSessions.Attach` | daemon/src/terminal.ts:389-435 | answers if and only if the session waits for its stream, the shell starts and the first frame is sent; what is set, what is gone and what each error leaves |
| `Terminal.TerminalSessions.EndSession` | daemon/src/terminal.ts:477-491 | a session ends once: out of the map, its timers cleared, its shell killed |
| `Terminal.TerminalSessions.CloseAll` | daemon/src/terminal.ts:459-461 | every session of the map is ended, in any order |
| `Terminal.TerminalSessions.Run` | daemon/src/terminal.ts:320-505 | calls, exits, timers and the clock in any order are a run of the step function |
| `Terminal.AlwaysGood` | daemon/src/terminal.ts:320-505 | slots, timers and shells are in order after every run |
| `Terminal.ItsTimers` | daemon/src/terminal.ts:352-475 | the timers of a session, over its history: its reservation's until it is attached, then its longest, and so long since it was attached or used |
| `Terminal.UsePutsItOff` | daemon/src/terminal.ts:437-475 | typing or resizing sets the idle end off again from now |
| `Terminal.ItStaysUntil` | daemon/src/terminal.ts:352-505 | a session leaves the map if and only if it is closed, its shell exits and the stream is told, its shell does not start, or one of those timers is due |
| `Terminal.SlotsAreBounded` | daemon/src/terminal.ts:352-475 | never more sessions than the limit; each is over within its reservation, or its longest and its idle time, and one whose stream refused the first frame within its idle time once it is used |
| `Terminal.OneShellToASession` | daemon/src/terminal.ts:389-435 | a session has at most one shell ever, and a shell that lives is one of a session in the map |
| `Terminal.HistoryHolds` | daemon/src/terminal.ts:352-475 | what a session's fields say is what happened to it |
| `Terminal.TimersAreTheSessions` | daemon/src/terminal.ts:418-435 | no timer outlives its session, and a session is without one if and only if it was attached to a stream that refused the first frame and nobody used it since |
| `Terminal.OnlyACloseEndsIt` | daemon/src/terminal.ts:418-435 | such a session stays through every timer, exit and passing of time, until it is closed |
| `Terminal.ARefusedStreamIsForgotten` | daemon/src/terminal.ts:418-435 | and a run comes to one, for any length of time |
| `Terminal.NothingSurvives` | daemon/src/terminal.ts:458-461 | after closing all there is no session, no live shell, no timer |
| `Descendants.DescendantsOf` | daemon/src/terminal.ts:214-246 | exactly the processes reachable by parentage, each once, circles included |
| `Descendants.Parentage` | daemon/src/terminal.ts:215-235 | the children of each process, in the order they are listed |
| `Pulls.PullProgress.ApplyEvent` | daemon/src/pulls.ts:76-131 | an event folded in place, and whether the pull moved |
| `Pulls.PullProgress.Bytes` | daemon/src/pulls.ts:64-70 | the bytes of all layers |
| `Pulls.BytesShown` | daemon/src/pulls.ts:64-70 | of layers on their way what has arrived, of the others all of it |
| `Pulls.WhatIsKnown` | daemon/src/pulls.ts:97-127 | what an event tells of its layer's size, bytes and count, and nothing of another |
| `Pulls.WhatMoves` | daemon/src/pulls.ts:76-131 | an event moves the pull if and only if its layer is new, changes its state, has more bytes while it downloads or a higher count while it is extracted |
| `Pulls.PullJob.TakeLine` | daemon/src/pulls.ts:314-324 | a line that moves the pull resets what a stall is measured from, and no other does |
| `Pulls.PullJob.CheckStall` | daemon/src/pulls.ts:265-280 | a pull is failed when it has not moved for longer than the limit, and stays so |
| `Pulls.PullJob.Run` | daemon/src/pulls.ts:265-324 | lines and looks in any order are a run of the step function |
| `Pulls.MovesIffItRises` | daemon/src/pulls.ts:76-131 | where no state is taken back bytes never go down, and an event moves the pull if and only if it raises layers, states, bytes and counts together |
| `Pulls.OnlyATakenBackState` | daemon/src/pulls.ts:76-131 | with counts in range, movement that does not raise them has taken a layer back to an earlier state |
| `Pulls.RepeatingNeverMoves` | daemon/src/pulls.ts:76-131 | saying a thing again is never movement, orderly or not |
| `Pulls.NeverAboveTheLimit` | daemon/src/pulls.ts:28-31 | the measure is bounded by the image |
| `Pulls.ChatterCannotKeepIt` | daemon/src/pulls.ts:265-280 | however much is said, a pull that is not called stalled has moved within the bound, once over for every state taken back, and is no older than its movements allow |
| `Pulls.OrderlyPullsEnd` | daemon/src/pulls.ts:265-280 | so without a state taken back it ends or is called stalled within a time the image fixes |
| `Pulls.DisorderMovesForEver` | daemon/src/pulls.ts:101-110 | two things said in turn of one layer move it twice as often as one likes, for as long as one likes, and no look finds it stalled |
| `Rotation.Agent.BeginRotation` | daemon/src/rotate.ts:46-65 | begun if and only if nothing refuses it, and then as the two steps of the runs; what is refused changes nothing |
| `Rotation.Agent.CommitRotation` | daemon/src/rotate.ts:68-83 | only the new token retires the old, from the file and from memory, as the two steps of the runs |
| `Rotation.LetInAfterARestart` | daemon/src/agent-file.ts:93-97 | after a restart the file's token is let in, and the one before it when it has 32 characters |
| `Rotation.CallsAreSteps` | daemon/src/rotate.ts:46-65 | a begin that runs to its end leaves memory and file as its two steps do; the agent's own method ensures it of itself |
| `Rotation.PanelIsLetInIff` | daemon/src/rotate.ts:42-83 | over begins, commits, lost answers and restarts between any two writes: the panel is let in, by the agent and by its file, if and only if fewer than two begins in a row are lost |
| `Rotation.LockedOutForGood` | daemon/src/rotate.ts:46-65 | after two, nothing the panel can do lets it in |
| `Rotation.CommitLeavesOnlyThePanel` | daemon/src/rotate.ts:68-83 | a commit never takes the panel's own token, and leaves no other |
| `Rotation.TwoLostBegins` | web/src/lib/node-ops.ts:750-762 | the run that locks the panel out |
| `Der.ReadsBackIff` | daemon/src/tls.ts:57-64 | an encoding reads back, whatever follows it, if and only if its contents are below 65536 octets |
| `Der.NothingIsShorter` | daemon/src/tls.ts:57-64 | no other encoding of the same contents is shorter (section 10.1 of X.690) |
| `Der.NothingElseIsAsShort` | daemon/src/tls.ts:57-64 | and none is as short but the one that is written |
| `Der.NestingReadsBack` | daemon/src/tls.ts:66-66 | any nesting of sequences reads back as it was |
| `Der.Integer` | daemon/src/tls.ts:82-87 | the loop drops the zeros that lead, and one is put back for the sign |
| `Der.IntegerKeepsItsValue` | daemon/src/tls.ts:79-87 | the INTEGER is the number it was given, not negative (section 8.3) |
| `Der.IntegerIsShortest` | daemon/src/tls.ts:79-87 | no shorter octets stand for the same number (section 8.3.2) |
| `Der.Oid` | daemon/src/tls.ts:68-77 | the loops write the arcs in groups of seven bits, as 32-bit operators see them |
| `Der.OidReadsBackIff` | daemon/src/tls.ts:68-77 | an identifier reads back if and only if its first octet is below 128 and its arcs below 2^31 |
| `Der.ArcHasNoPadding` | daemon/src/tls.ts:71-75 | no arc begins with a group that says nothing (section 8.19.2) |

## Left out

- Pax.NameFromMetadata: a length is taken as decimal digits only, not the other spellings `Number()` takes; bytes that are not UTF-8 are kept as they are, where decoding would replace them.
- TarWriter.Writer.TarChunks: the entries are whatever the walk met, in whatever order, a folder it could not open or list among them; sorting a directory's names, opening them through held directories and the wording of a warning are not part of it.
- TarReader.Unpacker.ExtractInto: writes and looks at the disk that end an unpacking are the `unpacked` of a restore's script, not part of the reader; a write that fails is seen when the file is opened or finished, not asynchronously between; NAME_MAX and other limits of a file system are not modelled.
- Room.FloorIsBetween: the five percent is exact; the code rounds it in floating point.
- Room.LetInIsNotStopped: with another writer on the disk the unpacking may be stopped, which is what its floor is for.
- Sweep.Sweeper.SweepWorlds: a `stat` that fails on a world that is there is taken as "missing" by the code and is not modelled; the steps of a six-hourly sweep are not interleaved with those of a live restore: what it leaves alone is `Sweep.YoungOnesStay`. The newest time is given, not looked for among the first two hundred names.
- Restore.RestoreInPlace: the in-place mode is documented to leave an incomplete world; only its code, its room and what it leaves alone are modelled.
- Publication: requests, kills and sweeps interleave as steps over values, not as one method each; deleting an archive by hand, the age a leaving has to have, uploads, the digest and the random part's collisions are left out, and so is `sanitise`.
- Beneath.NeverLeavesTheServer: what callers do with the located name, `walkHeld` and `sizeHeld` are not modelled; nor are errors of the kernel other than not found, not a directory and a link.
- Console.ExactlyOnce: lines without a timestamp are passed on as they are and are not part of the log's run; the log is not rotated or rebuilt under the follower.
- Pool.NeverMoreThanTheLimit: a limit that is not a whole number is not modelled.
- Gate: `withDeadline` is read off its body.
- Terminal: sessions, timers and shells are values in maps by identity, which keeps aliasing between the map and the timers' callbacks but not JavaScript objects; sizes, the environment of a shell, reading and writing frames and killing by signals are steps that may fail.
- Descendants.Parentage: parsing `stat` lines is left out; a line that does not parse is not in the listing.
- Pulls: the map of jobs, joining a pull, the JSON lines and the wording are left out; an error event ends the orderly stream.
- Rotation.PanelIsLetInIff: two rotations of one node side by side, and a settings file edited or removed by hand, are not part of the runs.
- Der: the two forms of a time are read off a branch; the certificate as a whole, keys and signatures are left out.
- HTTP, WebSockets, TLS handshakes, Docker's other calls, databases, pages, Windows paths and the `*Legacy` file functions.
- Modes, times and owners in archives: the reader does not restore them.
