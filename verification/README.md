# MARC-FS: the compound-file layer over the cloud

MARC-FS mounts a Mail.ru Cloud account through FUSE. The cloud refuses objects above 2 GiB, so a bigger file is
kept as numbered part objects and shown again as one file when a directory is listed. This project models that
layer with everything it rests on: the part names, the split, the tiny-file hash, the transfer callbacks, the
two storages, the listing collapse, the REST client, the open file node, the stat cache, the FUSE callbacks with
their retries and link files, and the two concurrent pools.

## How the pieces fit

- `Bytes`, `PartNames`, `Layout` : byte strings, part names and their regular expression, and where the bytes of
  a logical file live. The size limit is a parameter `m` with `20 <= m`; `Layout.MAX_FILE_SIZE` is the value the
  source is built with.
- `HexHash`, `Transfer`, `Storages`, `Dump` : the content that travels inside a hash, curl's chunked callbacks,
  the memory and file storages against one byte string, and the traffic dump with its unsigned wrap-around.
- `Listing`, `RestClient`, `ShareLinks` : `handleCompounds`, the cloud as a map from keys to bytes behind calls
  that may be refused, or may take effect and still report an error, and the text of link files.
- `Logical` : the relation `Represents(objects, files, m)`: the cloud stores exactly these logical files; and
  `Stores`, the same while the objects of some paths are in disarray.
- `FileNode`, `StatCache`, `Renames`, `FuseState`, `FuseHooks` : the file node, the cache, whole-file renames and
  exchanges, and the callbacks.
- `FileSystem`, `Mount` : what a user sees (named files, open handles, remembered sizes, nothing about objects and
  parts) and the proof that every run of callbacks behaves so.
- `Answers` : what the answers mean across calls: what is written, cut, renamed, closed and linked is found again by
  the calls that follow.
- `Coherence` : when the remembered sizes are true, and how long an open is possible.
- `RoundTrip`, `Anomalies` : flush-then-open for every content, and the places where truncate, unnoticed writes and
  exchange fall short, each with its exact condition.
- `Totals`, `ClientPool`, `ThreadPool` : the pools as interleaved steps of their threads.

The main result is `Mount.Mount.Run`: for every program of calls that are `Enabled` when their turn comes, each with
a script of the failures it meets, the codes and answers of the callbacks over cloud, cache and nodes are those
`FileSystem.CodeOf` and `FileSystem.Reply` give, and the state they leave shows the world `FileSystem.Next` gives.
Whether a call is survived by its retries follows from its script. A call that gives up costs the world one path at
most: it is `torn`, and a later flush of a handle that covers it settles it. All other paths, those of its directory
too, are still listed and looked up rightly; what a listing shows of a torn path, and since when such a path has been
remembered, is left to the outcome of the call. A second result says when that world is as one would wish:
`Coherence.CoherentRun`.

## Assumptions about the outside

- The cloud is a map from full path to bytes. Uploads and renames overwrite. Removing an object that is not
  there succeeds and changes nothing; if the service answered 404 instead, a retried flush would end in -EIO.
- A hash of 40 digits is read back by decoding its leading digits, two for each byte of the size sent along. A
  hash of any other width is refused with a code below 500.
- Failures follow a script (`RestClient.faults`): each upload, creation, removal or rename meets the next entry and
  is passed, refused, or done but reported as failed, with any response code. Listings, downloads and requests for
  public links are undisturbed; the link of an object is some fixed text (`links`).
- Only a slash separates for the cloud; the client also cuts names at a backslash. A move into something that does
  not end in a slash is refused, and so is a rename to an empty name, both with a code below 500.
- A listing names every object of its directory once, in any order.
- A run has one open node per path, no other writer, and a clock in seconds.
- The kernel opens a file only while its size is remembered, and with the true size. It may trust its own entry for
  as long as the cache does, so nothing in the source sees to that; `Coherence.OpenTooLate` shows how it fails.

## Model

| member | source | states |
|---|---|---|
| PartNames.ValueOfDecimal | src/marc_file_node.cpp:109 | the decimal index of a part denotes that index, in digits only |
| PartNames.SplitUnique | src/fuse_hooks.cpp:35 | the compound regular expression matches a name in at most one way |
| PartNames.BaseOfIsMatch | src/fuse_hooks.cpp:89-90 | the greedy search captures a base if and only if the name splits there into base, suffix and digits |
| PartNames.BaseOfIff | src/fuse_hooks.cpp:35 | a name has a base if and only if it is that base, the literal suffix and decimal digits, and the base is not empty and has no line end |
| PartNames.BaseOfPartName | src/fuse_hooks.cpp:89-90 | every part name gives back the base it was built from, also when the base contains the suffix |
| PartNames.PartNameExample | src/marc_file_node.cpp:109 | two part names, spelled out |
| PartNames.PartNameInjective | src/marc_file_node.cpp:73 | equal part names have equal path and equal index |
| Layout.ActualLimitIsValid | src/marc_rest_client.h:37 | the limit of the source is one the layout works for |
| Layout.PartBounds | src/marc_file_node.cpp:106-112 | every part starts within the content; all but the last are full, the last ends with the file |
| Layout.EmptyLastPart | src/marc_file_node.cpp:106 | a file of a whole number of parts has one more, which is empty |
| Layout.PartsTile | src/marc_file_node.cpp:104-113 | the parts glued in order are the content, for every length |
| Layout.SizesAddUp | src/fuse_hooks.cpp:96-98 | the part sizes sum to the file size, from which the part count is derived again |
| Layout.KeysDisjoint | src/marc_file_node.cpp:91-102 | two logical files never share a cloud key, whatever their sizes |
| Layout.DecodeEncode | src/marc_file_node.cpp:68-79 | downloading the keys of a file gives its content, whatever else the cloud holds |
| HexHash.ToPadded40Hex | src/marc_rest_client.cpp:64-80 | the stream loop computes the hash, including sign extension, the fill character and the wrapped width |
| HexHash.HashLength | src/marc_rest_client.cpp:74-77 | the hash is as wide as wished if and only if the digits of all bytes fit, for every width |
| HexHash.StoredIff | src/marc_rest_client.cpp:465-469 | an upload registers just its content if and only if that is empty, longer than 20 bytes, or its digits fit and it is ASCII followed by nothing but 0xFF |
| HexHash.AsciiRoundTrip | src/marc_rest_client.cpp:64-80 | for every width: seven-bit text of up to half of it gives that many hexadecimal digits, which decode to it |
| HexHash.AsciiDigits | src/marc_rest_client.cpp:70-77 | the hash of seven-bit text, digit by digit: two upper-case hexadecimal digits at the place of each byte, then zeros up to the fortieth |
| HexHash.AsciiIsStored | src/marc_rest_client.cpp:465-469 | up to 20 seven-bit bytes are registered as they are |
| HexHash.HighBytesMove | src/marc_rest_client.cpp:72 | what becomes of tiny content that begins with a byte from 0x80 on: three bytes 0xFF, then that byte |
| Storages.WriteAtByte | src/memory_storage.cpp:57-64 | each byte after a write comes from the buffer, from the old content, or is zero |
| Storages.ReadBackWritten | src/memory_storage.cpp:41-64 | a read of what was just written returns it |
| Storages.KeptIsRead | src/memory_storage.cpp:80-82 | a read within the kept range answers the same bytes before and after a truncation |
| Storages.PutBytes | src/file_storage.cpp:90-98 | each byte of a write, and its length, for either storage |
| Storages.StorageLaws | src/abstract_storage.h:48-111 | what one call of the interface does the next finds: sizes, emptiness and full reads after writes, appends, truncations and clearing |
| Storages.MemoryStorage.Read | src/memory_storage.cpp:41-55 | reads what the byte string has at the offset: as many bytes as there are, up to the size asked for, each of them the right one |
| Storages.MemoryStorage.Write | src/memory_storage.cpp:57-64 | overlays the byte string, zero-filling a gap, and reports the size as an int |
| Storages.MemoryStorage.Truncate | src/memory_storage.cpp:80-82 | has the size asked for; each byte is the old one, or zero behind the old end |
| Storages.FileStorage.Read | src/file_storage.cpp:76-88 | seek and read return as many bytes as there are, each of them the right one, and leave the stream usable after a short read |
| Storages.FileStorage.Write | src/file_storage.cpp:90-98 | the wrapped difference of two truncated stream positions is the truncated byte count at every offset |
| Storages.FileStorage.Append | src/file_storage.cpp:100-104 | appends at the end wherever the stream position was |
| Storages.FileStorage.Truncate | src/file_storage.cpp:120-125 | has the size asked for; each byte is the old one, or zero behind the old end; the stream is open and usable again |
| Storages.WrappedCount | src/file_storage.cpp:97 | the subtraction of two values cast to int, wrapped, is the size cast to int |
| Storages.SmallCountIsExact | src/memory_storage.cpp:63 | the reported count is the size if and only if the size is below 2^31 |
| Storages.WritesAgreeIff | src/file_storage.cpp:95-96 | both storages end up with the same content if and only if the write is not an empty one beyond the end |
| Storages.RunBoth | src/abstract_storage.h:48-111 | over every run without such a write, full reads of something and clearing included, both storages give the replies of one byte string |
| Transfer.ReadData.Callback | src/marc_rest_client.cpp:484-493 | sends as much as requested and left, in order, without unsigned underflow |
| Transfer.ReadData.Deliver | src/marc_rest_client.cpp:484-493 | any sequence of buffer sizes delivers the slice up to their sum, each byte once, and nothing after it |
| Transfer.ReadData.Perform | src/marc_rest_client.cpp:475-494 | a whole transfer sends exactly the slice, whatever buffers curl offers |
| Transfer.Receive | src/marc_rest_client.cpp:211-217 | pieces of any size append up to the body |
| Listing.HandleCompounds | src/fuse_hooks.cpp:82-109 | non-part entries in their order, then exactly one entry per base with the summed size |
| Listing.CollapseKeepsTotal | src/fuse_hooks.cpp:82-109 | the total size of a listing is unchanged by the collapse |
| Listing.CollapseDistinct | src/fuse_hooks.cpp:105-108 | names stay distinct if nothing exists both singly and as parts |
| Listing.StatAfterCollapse | src/fuse_hooks.cpp:236-251 | the search loop finds the parts of a name before a single object of that name |
| Listing.PartSumIsSize | src/fuse_hooks.cpp:92-99 | in whatever order parts are listed, their sizes sum up |
| ShareLinks.LinkTargetIff | src/fuse_hooks.cpp:36 | a path stands for what comes before the last `.marcfs-link` in it, in its name or in a directory, if and only if that is not empty and there are no line ends |
| ShareLinks.LinkLinesAre | src/fuse_hooks.cpp:139-156 | cut at its line ends the text has a line for each object, in order, and nothing behind: the object's key, the literal public address, then its link |
| ShareLinks.HalfLine | src/fuse_hooks.cpp:152-153 | the half line left for a missing file: its path, a colon and a blank |
| RestClient.TwoPhaseIsMoveIff | src/marc_rest_client.cpp:402-426 | for all names: rename-then-move is one move if and only if, without backslashes, the directories agree or no third object is half-way; with some, only by two named accidents of what else the cloud holds; and the new name is not empty |
| RestClient.WrongName | src/marc_rest_client.cpp:403-412 | if both names share what stands before their last backslash, the object ends up under the rest of the new name alone, and success is reported |
| RestClient.MovedUnnoticed | src/marc_rest_client.cpp:423-425 | a rename away from a name with a backslash, in its directory, moves the object where it should be and fails, unless a third object lies where the client looks |
| RestClient.BackslashExamples | src/marc_rest_client.cpp:403-425 | one input for each of the two |
| RestClient.RestClient.Upload | src/marc_rest_client.cpp:455-497 | what an upload registers: nothing, the hashed content, or the transferred slice; a hash of the wrong width is refused |
| RestClient.RestClient.Rename | src/marc_rest_client.cpp:402-426 | undisturbed it succeeds if and only if the source is there and neither phase is refused; any failure leaves the object where it was, where the first phase puts it, or at its new place |
| RestClient.RowFailure | src/fuse_hooks.cpp:41-61 | a row of calls that fails has used up one failure, the last entry it used, and reports its code |
| RestClient.RestClient.Ls | src/marc_rest_client.cpp:511-537 | lists every object of a directory once with its size |
| Logical.DecodeStored | src/marc_file_node.cpp:55-80 | reading a stored file by its size gives its content |
| Logical.Replaced | src/marc_file_node.cpp:91-116 | removing the old objects and adding the new ones changes that file and no other |
| Logical.Settles | src/marc_file_node.cpp:91-116 | removing and overwriting all that may lie at a path makes its file whole, even if it was in disarray, while others still are |
| Logical.Unstored | src/marc_file_node.cpp:136-148 | removing the keys of a file removes that file and no other |
| Logical.StoresOthers | src/marc_file_node.cpp:91-116 | whatever happens to the objects of some paths, all other files stay stored |
| Logical.StatIsLogical | src/fuse_hooks.cpp:230-257 | a stat through any listing gives the size of the logical file, and nothing if there is none |
| Logical.WholeStat | src/fuse_hooks.cpp:230-257 | the same for every name whose objects are in order, while those of other paths, in the same directory too, are not |
| Logical.ListingIsLogical | src/fuse_hooks.cpp:311-328 | a collapsed listing shows every file of its directory once with its size, and nothing else |
| Logical.WholeListing | src/fuse_hooks.cpp:311-328 | beside paths in disarray a collapsed listing still shows every file of its directory once with its size, and otherwise nothing but such paths |
| Logical.RepresentsUnique | src/fuse_hooks.cpp:63-81 | no cloud content can be read as two different sets of files |
| FileNode.FlushForgets | src/marc_file_node.cpp:91-120 | whatever failed attempts did to the file's keys, the flush that gets through has the same outcome |
| FileNode.FlushKeysGrow | src/marc_file_node.cpp:91-114 | a bigger content reaches all keys an earlier, failed flush of a smaller one may have touched |
| FileNode.MoveAllMoves | src/marc_file_node.cpp:150-163 | through a free way every object of the file gets to its new key, none lands on one not yet moved, and nothing else changes |
| FileNode.MarcFileNode.Open | src/marc_file_node.cpp:55-80 | appends all objects of the remembered size, or ends in 404 with whatever the error page added |
| FileNode.MarcFileNode.Flush | src/marc_file_node.cpp:83-121 | the status is that of the first failure met among its removals and uploads, or says that the content is not taken; on success old objects are gone and new ones there; on failure the node is as before and only the file's keys may differ; with single objects, exactly what is left |
| FileNode.MarcFileNode.Read | src/marc_file_node.cpp:123-125 | as many bytes of the content as there are from the offset on, up to the size asked for |
| FileNode.MarcFileNode.Write | src/marc_file_node.cpp:127-134 | each byte and the length after a write, by the storage in use, on disk or in memory; raises the dirty flag only for a positive count |
| FileNode.MarcFileNode.Remove | src/marc_file_node.cpp:136-148 | removes exactly the objects of the remembered size |
| FileNode.MarcFileNode.Rename | src/marc_file_node.cpp:150-163 | renames the objects one by one, in any cloud and for any names; a failure leaves those before it moved, one where it was, half-way or moved, and all others untouched |
| FileNode.MarcFileNode.Truncate | src/marc_file_node.cpp:165-170 | cuts or zero-extends the content, byte by byte, and forgets what size the cloud has |
| FileNode.MarcFileNode.Release | src/marc_file_node.cpp:172-178 | remembers the last size and drops the content |
| StatCache.CacheManager.Get | src/mru_cache.cpp:28-47 | answers only entries that are not too old, and erases those that are |
| StatCache.CacheManager.Update | src/mru_cache.cpp:61-70 | changes the size of a present entry, not its age |
| Renames.MoveStores | src/marc_file_node.cpp:150-163 | through a free way to a free path a file gets there, single or compound, and no other changes |
| Renames.MoveStoresIff | src/marc_rest_client.cpp:402-426 | for all names of files it does so if and only if, without backslashes, the directory or the name stays, or no file stored in the same way has the new name in the old directory; with a backslash only if the old name alone has it, the directory stays and the cloud has an object at every key the client looks for |
| Renames.ReplaceStoresIff | src/fuse_hooks.cpp:450-456 | a rename over another file replaces it under just the same condition, the target left out |
| Renames.ExchangeStores | src/fuse_hooks.cpp:442-448 | the three renames of an exchange swap two files of any kinds, also past a file of the other kind at the temporary name |
| Renames.ExchangeSwapsIff | src/fuse_hooks.cpp:442-448 | they do so if and only if neither name has a backslash, no file stored like the target has the temporary name and, across directories, the names are equal and the kinds are not, or no file of the kind that passes is in either way |
| FileSystem.RetryCodeIs | src/fuse_hooks.cpp:41-61 | fewer failures than attempts, all of them server errors, are survived; -EINVAL comes of as many server errors as attempts and of nothing else; -EIO of another error first or of content that is not taken |
| FileSystem.SingleCallIff | src/fuse_hooks.cpp:41-61 | a single call gets through if and only if one of the attempts passes after server errors only, and gives up with -EIO if and only if another error comes first |
| FileSystem.ThreeAttempts | src/fuse_hooks.cpp:41-61 | in numbers: three server errors end in -22, two are survived, another error ends in -5 at once |
| FileSystem.TruncateLoses | src/fuse_hooks.cpp:470-480 | a refused upload loses a truncated closed file: the retry finds nothing and gives up, whatever comes then |
| FileSystem.TruncateCalm | src/fuse_hooks.cpp:470-480 | undisturbed, a single object is cut or grown within the limit if and only if what is left is taken; if not, it is gone |
| FuseState.FlushKeeps | src/marc_file_node.cpp:83-121 | a flush that gets through stores the content and settles a path in disarray, if its handle covers it |
| FuseState.FlushTears | src/marc_file_node.cpp:91-120 | a flush that gives up leaves a handle that still covers all its path may hold |
| FuseState.WriteKeeps | src/marc_file_node.cpp:127-134 | so does a write, before or after a failed flush |
| FuseState.CutKeeps | src/marc_file_node.cpp:165-170 | a truncated handle covers the path if the new size uses all old keys; if not, only that path is given up |
| FuseState.ReachIff | src/marc_file_node.cpp:165-170 | all that the flush of a handle would reach is reached after a truncation if and only if the new size uses all keys of the size in the cloud and of the content |
| FuseState.MknodKeeps | src/fuse_hooks.cpp:484-489 | creating over nothing or a single object gives an empty file, over a compound one a path in disarray |
| FuseState.ClosedGone | src/fuse_hooks.cpp:412-416 | removing a closed file removes just that |
| FuseState.LeftKeeps | src/fuse_hooks.cpp:470-480 | whatever the attempts at a truncation leave of a single object, that file is changed or gone, and no other |
| FuseState.ReplaceKeeps | src/fuse_hooks.cpp:450-456 | wherever the way is free, removing the target and renaming the source replaces the one file by the other |
| FuseHooks.FlushWithRetry | src/fuse_hooks.cpp:41-61 | for every script of failures the exact code, three attempts and not fewer; after any number of failed ones success leaves exactly the new objects, failure changes nothing else |
| FuseHooks.TruncateWithRetry | src/fuse_hooks.cpp:470-480 | for every script of failures the code and what each attempt has left of a single object; grown beyond the limit it stays, and the code is that of a row of uploads |
| FuseHooks.FuseHooks.GetAttrCallback | src/fuse_hooks.cpp:194-258 | 0 for the root, -5 without a slash, what the cache has for up to 60 seconds, the size of the listed file, which is then remembered as of now, or -2 |
| FuseHooks.FuseHooks.ReadDirCallback | src/fuse_hooks.cpp:305-329 | returns every logical file of the directory with its size, each once, and otherwise only entries of paths in disarray; remembers the sizes as of now |
| FuseHooks.FuseHooks.OpenCallback | src/fuse_hooks.cpp:286-298 | with a remembered, true size, opens a clean node that holds the file's content |
| FuseHooks.FuseHooks.ReadCallback | src/fuse_hooks.cpp:338-342 | as many bytes of the open file as there are from the offset on, up to the size asked for |
| FuseHooks.FuseHooks.WriteCallback | src/fuse_hooks.cpp:344-348 | any write, flagged for upload or not, with either storage, answers its size as an int |
| FuseHooks.FuseHooks.TruncateCallback | src/fuse_hooks.cpp:461-468 | any truncation of an open file: each byte of it afterwards, and the remembered size |
| FuseHooks.FuseHooks.GatherLinks | src/fuse_hooks.cpp:139-156 | asks for the link of every object of the file once and in order, and gives the text `ShareLinks.LinkLinesAre` reads; half a line for a missing file |
| FuseHooks.FuseHooks.HandleLinks | src/fuse_hooks.cpp:124-162 | a link file holds the links of the file it stands for and nothing of what it held before; other files are left alone |
| FuseHooks.FuseHooks.FlushCallback | src/fuse_hooks.cpp:351-364 | for every script of failures the exact code, for link files too: on success the file is what was written and its remembered size is right, on failure no object of another path has changed and the handle is as it was |
| FuseHooks.FuseHooks.UnlinkCallback | src/fuse_hooks.cpp:396-417 | for every script of failures the exact code: on success the file is gone with all its parts, also if a retry found some missing; no object of another path changes |
| FuseHooks.FuseHooks.MknodCallback | src/fuse_hooks.cpp:484-489 | for every script of failures the exact code, over an existing file too: what it leaves, and no change elsewhere |
| FuseHooks.FuseHooks.TruncateClosedCallback | src/fuse_hooks.cpp:461-482 | for every script of failures the exact code and what is left: -5 and no change for a missing or compound file; undisturbed, a single object with each byte kept or zero; else cut, grown, twice through the hash or gone, and beyond the limit a path in disarray |
| FuseHooks.FuseHooks.RenameCallback | src/fuse_hooks.cpp:419-459 | undisturbed, for single and compound files in any mix, wherever the ways allow it: -2 if and only if the source is missing, -17 if and only if the target may not be replaced, both without any change; else the content is at the new path, and the old one is gone or has the target's |
| Coherence.CoherentNext | src/fuse_hooks.cpp:194-489 | every careful call leaves each remembered size that of its file, or what an open handle was truncated to, whether it gets through or not |
| Coherence.CoherentRun | src/fuse_hooks.cpp:194-489 | so the cache is coherent at every moment of every careful run, through failures |
| Coherence.StatIsTrue | src/fuse_hooks.cpp:219-257 | then a stat finds every file with its size, of files with unflushed writes too; of a truncated one it shows the old or the truncated size |
| Coherence.CachedIsListed | src/mru_cache.cpp:49-70 | a remembered size is the one the collapsed listing of the cloud shows |
| Coherence.TruncateShown | src/fuse_hooks.cpp:461-468 | a truncated file shows its new size exactly while the entry of that time lasts, and the old one otherwise and after a listing |
| Coherence.OpenWindow | src/fuse_hooks.cpp:290-292 | after a listing an open is possible exactly for a minute, which a stat answered from the cache does not prolong |
| Coherence.OpenAfterStat | src/fuse_hooks.cpp:290-292 | a stat that has looked a file up makes an open possible for exactly 60 seconds |
| Coherence.LastFreshSecond | src/mru_cache.cpp:28-47 | a remembered size is shown up to an age of 60 seconds, the listed one from 61 on |
| Coherence.OpenTooLate | src/fuse_hooks.cpp:290-292 | an open can find no entry although a stat has just found the file |
| Answers.ReadAnswers | src/fuse_hooks.cpp:338-342 | a read of an open file answers the bytes there are, and how many |
| Answers.WriteThenRead | src/fuse_hooks.cpp:344-348 | what is written is read back through that handle and no other, and sized and counted |
| Answers.WriteKeepsRest | src/fuse_hooks.cpp:344-348 | bytes a write has not reached are read as before |
| Answers.TruncateThenRead | src/fuse_hooks.cpp:461-468 | after a truncation the size is the new one, what lies within it reads as before, and what is new reads as zeros |
| Answers.CloseToOpen | src/fuse_hooks.cpp:286-375 | what was flushed, through failures that are survived, and closed is listed with its size and read, byte for byte above 20 bytes, by whoever opens it within a minute of the listing |
| Answers.WholeLife | src/fuse_hooks.cpp:286-489 | from an empty mount, for every limit and content below 2 GiB: create, list, open, write, flush, close, list, open and read run to the end, with all nine answers |
| Answers.RenameAnswers | src/fuse_hooks.cpp:419-459 | a rename answers -2, -17 or success as source, target and flags have it, and changes no file unless it succeeds |
| Answers.RenameThenRead | src/fuse_hooks.cpp:419-459 | a renamed file is listed, opened and read at its new path |
| Answers.UnlinkThenStat | src/fuse_hooks.cpp:396-417 | an unlinked file is not found any more, be it with failures that are survived |
| Answers.LinksAreRead | src/fuse_hooks.cpp:124-162 | a flushed link file has one line for each object of the file it stands for, with its key and link, or half a line if there is none |
| Mount.Mount.Step | src/fuse_hooks.cpp:194-489 | one call of any kind has the answer and the effect the world of files, handles and remembered sizes gives it, whether it gets through or gives up |
| Mount.Mount.Run | src/fuse_hooks.cpp:194-489 | every program of enabled calls, through any failures, has the codes, the answers and the effects of that world |
| RoundTrip.FlushThenOpen | src/marc_file_node.cpp:39-121 | flush, list, collapse, stat and open give back the uploaded bytes of any length; no other file's objects change |
| RoundTrip.FlushThenOpenActual | src/marc_rest_client.h:37 | the same at the real limit, byte for byte, above 20 bytes |
| Anomalies.TruncateCoversIff | src/marc_file_node.cpp:165-170 | after truncate the node still covers what is in the cloud if and only if the new size uses all old keys |
| Anomalies.TruncateStoresIff | src/marc_file_node.cpp:91-120 | after truncate and flush the cloud stores the truncated file and all others if and only if the new size uses all old keys |
| Anomalies.TruncateShowsIff | src/marc_file_node.cpp:91-120 | after truncate and flush a stat shows the new size if and only if the file was single, or stays compound with no old bytes beyond the new parts |
| Anomalies.TruncateReadsBack | src/marc_file_node.cpp:104-116 | with the new size shown, the truncated content is read |
| Anomalies.TruncateComesBack | src/marc_file_node.cpp:165-170 | a compound file cut down to one object comes back with its old size and content |
| Anomalies.TruncateLeavesOld | src/marc_file_node.cpp:165-170 | a single object grown beyond the limit is left behind and is back once the grown file is removed |
| Anomalies.WriteNoticedIff | src/marc_file_node.cpp:127-134 | a write changes nothing or is flagged for upload, if and only if it rewrites what is there, is an empty one to a storage on disk, or the low 32 bits of its size are a positive int |
| Anomalies.RetriedRenameLoses | src/fuse_hooks.cpp:424-457 | a rename of a compound file that failed after two parts or more and is tried again removes the parts that have arrived and gives up: their bytes are lost |
| Anomalies.ExchangeLoses | src/fuse_hooks.cpp:442-448 | exchanging equally named single objects of two directories loses the source's content |
| ClientPool.StepKeepsInv | src/object_pool.h:57-91 | idle and held clients together are always the populated ones, through exceptions too |
| ClientPool.Exclusive | src/object_pool.h:57-65 | no client is held twice, or held and idle |
| ClientPool.IdleOrder | src/object_pool.h:57-75 | over every run idle clients are handed out in their order, before any that is given back |
| ClientPool.StuckIff | src/fuse_hooks.cpp:426-429 | callbacks are stuck if and only if as many renames wait for a second client as there are clients |
| ClientPool.StuckForever | src/object_pool.h:57-65 | nothing that may happen then helps: callbacks that begin get stuck too |
| ClientPool.StepDescends | src/fuse_hooks.cpp:41-61 | every step of every thread lowers one measure, which counts the callbacks still to come |
| ClientPool.AlwaysFinishes | src/fuse_hooks.cpp:41-61 | with fewer threads inside renames than clients at every moment, whatever they have to do in all, every interleaving is finite and a callback that is under way can always go on |
| ClientPool.CalmGoesOn | src/fuse_hooks.cpp:41-61 | with two clients or more such a run can be continued, within that bound, until all is done |
| ClientPool.RenamesCanDeadlock | src/fuse_hooks.cpp:419-429 | as many renames at a time as clients can get stuck, for every pool size |
| ThreadPool.StepKeepsInv | src/thread_pool.h:55-96 | tasks are taken first in first out and each is queued, running or done exactly once |
| ThreadPool.Drained | src/thread_pool.h:99-108 | when all workers have gone, every accepted task was taken in order and run once |
| ThreadPool.DestructorDrains | src/thread_pool.h:99-108 | after stop nothing is accepted, every interleaving is finite and ends with all workers gone and all tasks run |
| ThreadPool.DropsNothingIff | src/thread_pool.h:55-108 | no interleaving drops an accepted task if and only if the pool has a worker |
| Dump.TextColumn | src/utils.cpp:48-63 | on a line end the wrapped row index lands right behind it |
| Dump.TextPlain | src/utils.cpp:49-56 | without line ends, or in hex mode, the text has one character for each byte, in order: itself from 0x20 up to 0x7F, else a dot |
| Dump.TextOfLines | src/utils.cpp:48-63 | printable lines are read as they are, without their line ends |
| Dump.DumpRows | src/utils.cpp:37-65 | the loop ends; each row begins where the one before has ended and shows its bytes, a row of text up to a line end or its full width; both columns show each byte once in hex mode, the text mode each byte outside the line ends |
| Dump.TextCut | src/utils.cpp:50-54 | a line end disappears from the text wherever it stands |

## Left out

- Login, tokens, shards, cookies, JSON and parameter escaping: network plumbing that cannot be seen from here.
- Directories, modes, times, block counts and `statfs`: only regular files, their sizes and presence are modelled; a run lists directories, but looks up none but the root (`World.folders` names those that were there before).
- 64-bit overflow of summed sizes and offsets; the casts to `int` and the unsigned loop indices are modelled.
- RestClient.RestClient.Ls: returns no folder entries and all files, also beyond the 100500 the source asks for.
- RestClient.RestClient.Share: does not fail for an object that is there.
- MarcFileNode: keeps its storage as the byte string that `Storages` proves each storage to be; which of the two it is (`onDisk`) matters to an empty write beyond the end only. File storage's descriptor and temporary name are not captured.
- FuseState.CutKeeps: of a path in disarray, counts all that a flush of the handle would reach as possibly there.
- FuseHooks.FuseHooks.GetAttrCallback: finds no folders, because the listing has none.
- FuseHooks.FuseHooks.OpenCallback: says nothing without a fresh and true entry: the source then dereferences null, or downloads by a wrong size.
- FuseHooks.FuseHooks.HandleLinks: asks for a file that is not in disarray, is no folder, and is shown truthfully.
- FuseHooks.FuseHooks.RenameCallback: claims nothing when calls fail or a way is not free: `Anomalies.RetriedRenameLoses`, `Renames.MoveStoresIff` and `Renames.ExchangeSwapsIff` say what can come of it. A stat of the target that fails is taken for a missing target by the source, and is not modelled.
- Mount.Mount.Run: names a path in disarray only through its handle, in a creation, or by listing its directory.
- Dump.DumpRows: gives offsets and hexadecimal cells as numbers and bytes, not as digits, and no heading.
- CacheManager: one caller at a time; the window between its two locks in `get` is not modelled.
- ClientPool: the condition variable is a wait for a non-empty list; lost or spurious wake-ups and the shutdown flag are not modelled.
