# Verified models of an Apache httpd core and a call-graph miner

The repository holds two programs: the core of Apache httpd 2.2.21, and `pipair`, which
mines a call graph for pairs of functions that are usually called together. This project
models the parts of both that carry state and proves what they promise.

**Network filters** (`Bytes`, `Network`, `Senders`, `Buckets`, `OutputFilter`, `OutputRuns`,
`Slices`, `Reading`, `InputFilter`, `InputRuns`, `InputHarm`). The output filter walks a brigade
of buckets, collects up to 16 vectors, one file and 16 trailers, coalesces small buckets in
place, and sends or sets aside what it has collected. The operating system answers sends, seeks
and reads as an arbitrary script says, and keeps a log of what they came to; the bytes that left
are a ghost sequence, the wire. The central result is the exact condition for conservation of
the byte stream: over any run from an open connection it holds if and only if the log shows no
failure, because the first failed call loses what was not sent, with success reported if it is
EAGAIN. On the reading side buckets are slices of shared allocations, and a line is written
behind whatever bucket is last in the brigade it goes to. Over any run of reads, peeks and lines
into any number of brigades, the slices handed out, read in the memory as it is at the end,
followed by the buffer are what came from the socket, and no slice handed out ever changes,
provided each line goes to a brigade that was cleaned first or is otherwise in line with
everything handed out. Otherwise bytes can be lost or overwritten, with a peek and without; the
condition is exact at the write that does it, and for a whole call when nothing is held.

**Configuration** (`Directives`, `ConfigGrammar`, `TreeLayout`, `ConfigTree`, `ConfigBuild`,
`ReaderLaws`, `ConfigWalk`, `WalkLaws`, `ServerConfig`, `Options`, `Commands`). The reader turns
lines into a tree of linked nodes through a pair of pointers; the functions in `Directives` do
the same on a zipper, a grammar says which files are well nested, and `ConfigTree` and
`ConfigBuild` prove the linked nodes to be that tree. The walker executes the tree under
settings that it saves, changes and restores; its specification hands the settings down by
value. `ReaderLaws` and `WalkLaws` say what lines become, which conditions hold and when a walk
succeeds without naming these functions.

**Child reclamation** (`Reclaim`) and **pipair** (`CallIndex`, `Expansion`, `Reach`, `Miners`,
`Agreement`).

Bit masks are sets of flags. HashSet and HashMap iteration visits elements in any order, except
that the callees of a function are visited in a fixed order, as an unchanged HashSet does.

What is assumed of the surroundings:

- EOS and EOC buckets occur only as the last bucket of a brigade passed to the output filter.
  Later buckets would be thrown away at core_filters.c:877.
- Reading a bucket succeeds, except that a non-blocking read of a pipe may report EAGAIN.
  A file does not shrink while it is sent.
- A successful send of a non-empty stream makes progress. A failed one may have sent any prefix
  that leaves at least one byte, as in sendrecv.c:30-420, and for sendfile may report fewer bytes
  than left. (There, a failure to set TCP_NOPUSH also leaves the reported count as it was, which
  only the logging of sent bytes would show.)
- `<IfDefine` and `<IfModule` are the only commands executed on reading, and a module adds its
  commands once.
- A command whose function walks the content of its section is the last of the commands with
  its name. Otherwise the next one would see a directive of the content in cmd->directive.
- The clock of the reclamation loop does not go back, and process ids are not reused during it.

## Model

| member | source | states |
|---|---|---|
| Senders.WritevItAll | qi/partB/httpd-2.2.21/server/core_filters.c:308-350 | for every schedule of partial writes, zero-length vectors included: on success each byte has been sent once, and on failure exactly the first `nbytes` bytes, and not all; it fails exactly when the last transfer it made failed, with the same status |
| Senders.Repair | qi/partB/httpd-2.2.21/server/core_filters.c:330-344 | after n bytes have gone, the vectors from the returned index on, adjusted in place, hold exactly the unsent suffix |
| Senders.SkipSent | qi/partB/httpd-2.2.21/server/core_filters.c:396-410 | drops exactly the sent front of a window of vectors in place and reports how many sent bytes belong to what follows the window |
| Senders.SkipAll | qi/partB/httpd-2.2.21/server/core_filters.c:393-440 | pending headers, file range and trailers together become the unsent suffix of what they were |
| Senders.SendfileItAll | qi/partB/httpd-2.2.21/server/core_filters.c:359-442 | any schedule of short sends: a prefix of headers, file range and trailers reaches the wire, all of it exactly once on success; it fails exactly when the last transfer failed, and the count never exceeds what was sent |
| Senders.SendBuffer | qi/partB/httpd-2.2.21/server/core_filters.c:491-500 | the inner loop sends a buffer once and in order, and after a failed transfer a proper prefix of it |
| Senders.SendRange | qi/partB/httpd-2.2.21/server/core_filters.c:485-501 | for every schedule of short reads and short writes the file range is sent once, or a proper prefix of it exactly when a read or a write fails |
| Senders.EmulateSendfile | qi/partB/httpd-2.2.21/server/core_filters.c:451-518 | the same promise as sendfile_it_all, kept by seeking, reading and writing: it fails exactly when the last of these calls failed |
| Senders.SendBothWays | qi/partB/httpd-2.2.21/server/core_filters.c:834-859 | the fast path refines the simple one: each succeeds exactly when no call of the operating system fails, when both succeed on equal inputs the wires and the counts are equal, and in every case one wire is a prefix of the other |
| Buckets.Read | qi/partB/httpd-2.2.21/server/core_filters.c:630-639 | reading a bucket yields its bytes as plain data, possibly followed by the unread rest of a pipe; only a non-blocking read of a pipe can report EAGAIN |
| Buckets.WriteAppends | qi/partB/httpd-2.2.21/srclib/apr-util/buckets/apr_brigade.c:416-468 | apr_brigade_write into the buffer of the last bucket appends bytes to the stream of a brigade and changes nothing else, for buckets that share no allocation; the shared ones are the subject of Slices |
| OutputFilter.Batch.AddVector | qi/partB/httpd-2.2.21/server/core_filters.c:720-724 | a vector added to the batch appends its bytes to headers, file and trailers read as one stream, and nbytes stays the summed length |
| OutputFilter.Batch.AddTrailer | qi/partB/httpd-2.2.21/server/core_filters.c:726-740 | the same for a trailer behind a file |
| OutputFilter.Coalesce | qi/partB/httpd-2.2.21/server/core_filters.c:655-716 | coalescing under 8000 bytes in place, with the merged heap bucket reused, leaves one heap bucket with exactly the bytes collected so far |
| OutputFilter.Squeeze | qi/partB/httpd-2.2.21/server/core_filters.c:672-718 | after coalescing the batch is one vector, still equal to the bytes of the buckets visited, and the walk goes on at the triggering bucket |
| OutputFilter.NoRoom | qi/partB/httpd-2.2.21/server/core_filters.c:640-652 | full vectors with 8000 bytes, or full trailers, occur only for brigades that are not to be set aside whole |
| OutputFilter.Overflow | qi/partB/httpd-2.2.21/server/core_filters.c:642-719 | with all vectors used the pass ends when there are 8000 bytes, and otherwise goes on with fewer vectors in use and no byte lost |
| OutputFilter.Place | qi/partB/httpd-2.2.21/server/core_filters.c:640-741 | the bytes of a bucket that was read go to a vector or a trailer, never past the 16th; each step takes a bucket, frees vectors, or ends the pass |
| OutputFilter.ReadStep | qi/partB/httpd-2.2.21/server/core_filters.c:630-639 | replacing a bucket by what was read from it keeps the accounts of the pass: bytes, order, what must be sent, and where the stream may end |
| OutputFilter.MoveStep | qi/partB/httpd-2.2.21/server/core_filters.c:590-743 | moving past a bucket keeps these accounts and uses up weight, which is what makes the passes end |
| OutputFilter.CoalesceStep | qi/partB/httpd-2.2.21/server/core_filters.c:655-718 | so does the coalescing step, which moves backwards |
| OutputFilter.TakeData | qi/partB/httpd-2.2.21/server/core_filters.c:626-742 | the branch for readable buckets keeps the accounts; it splits the brigade only for EAGAIN, 8000 bytes or a full set of trailers; only the first bucket of a pass is ever read blocking, so that nothing collected has to wait |
| OutputFilter.TakeFile | qi/partB/httpd-2.2.21/server/core_filters.c:609-625 | a first large file joins the batch behind the vectors |
| OutputFilter.Collect | qi/partB/httpd-2.2.21/server/core_filters.c:590-743 | one pass over any brigade: batch ++ rest is the brigade's byte stream, vectors and trailers stay within 16, the stop is at a FLUSH, EOS, EOC, second file, overflow or EAGAIN, and the walk terminates although coalescing moves it backwards |
| OutputFilter.KeepStep | qi/partB/httpd-2.2.21/server/core_filters.c:760-813 | a batch that is set aside is the whole brigade, holds no FLUSH, EOS or EOC, and lags only by bytes that may wait |
| OutputFilter.PullIn | qi/partB/httpd-2.2.21/server/core_filters.c:774-804 | pulling in the data of all buckets but the first file changes no byte of the stream |
| OutputFilter.SendBatch | qi/partB/httpd-2.2.21/server/core_filters.c:815-875 | sending a batch by file or by vectors puts a prefix of its stream on the wire, all of it exactly when no call of the operating system fails; sendfile is used exactly for files that allow it |
| OutputFilter.SendStep | qi/partB/httpd-2.2.21/server/core_filters.c:903-920 | what is left for the next pass lags no more than the whole did and is smaller, or equally large and read blocking next |
| OutputFilter.CoreOutput.Pass | qi/partB/httpd-2.2.21/server/core_filters.c:565-921 | one pass keeps the whole brigade without touching the socket, or sends a prefix, a proper one exactly if a call of the operating system fails; a brigade that is calm (small, no forcing bucket, nothing that can block, at most one held file with 16 buckets after it) is kept |
| OutputFilter.CoreOutput.Keep | qi/partB/httpd-2.2.21/server/core_filters.c:766-812 | the brigade that is set aside has the same bytes, without its EOS |
| OutputFilter.CoreOutput.Drain | qi/partB/httpd-2.2.21/server/core_filters.c:563-923 | all passes: they end for every finite brigade; as long as no call of the operating system fails, what is not on the wire is set aside, and is no more than what may wait; the first failure ends them, with a proper prefix of what was due on the wire |
| OutputFilter.CoreOutput.Write | qi/partB/httpd-2.2.21/server/core_filters.c:535-924 | one call, as a function of the calls of the operating system it makes: if none fails, the bytes sent and the bytes set aside are what was set aside followed by the brigade, under 8000 bytes and no FLUSH, EOS or EOC are set aside, and never more than what follows the last bucket that forces output; the first failure is the last call made, loses all that was not sent, and aborts the connection unless it is EAGAIN; an error is reported exactly if the connection is aborted; a calm brigade makes no call; an aborted connection stays as it is |
| OutputRuns.RunConserves | qi/partB/httpd-2.2.21/server/core_filters.c:545-924 | over every run in which no send, seek or read fails, wire followed by set-aside bytes equals the start followed by everything passed in, in order |
| OutputRuns.AbortedIsFinal | qi/partB/httpd-2.2.21/server/core_filters.c:545-549 | once aborted, wire and buffer never change again |
| OutputRuns.CutKeepsPrefix | qi/partB/httpd-2.2.21/server/core_filters.c:903-914 | after the first failure, if it is not EAGAIN, the wire is for good a proper prefix of the stream passed in |
| OutputRuns.StepKeeps | qi/partB/httpd-2.2.21/server/core_filters.c:535-924 | one call never adds a byte, keeps every byte if no call of the operating system fails, and loses at least one if one fails |
| OutputRuns.ConservedIff | qi/partB/httpd-2.2.21/server/core_filters.c:903-917 | over every run, whatever fails, conservation holds if and only if no call of the operating system fails while the connection is open and nothing is passed in after it is aborted |
| OutputRuns.ConservedIffNoFailure | qi/partB/httpd-2.2.21/server/core_filters.c:903-917 | so from an open connection the stream is conserved if and only if no send, seek or read fails in the whole run |
| OutputRuns.WriteAll | qi/partB/httpd-2.2.21/server/core_filters.c:535-924 | the same for the filter itself, called with any sequence of brigades: conserved if and only if the log of the operating system shows no failure |
| OutputRuns.EagainForgets | qi/partB/httpd-2.2.21/server/core_filters.c:907-916 | if the operating system answers the first send with EAGAIN and not everything may wait, the call reports success, sends nothing and forgets everything |
| OutputRuns.EagainDropsData | qi/partB/httpd-2.2.21/server/core_filters.c:907-916 | one byte and a FLUSH written to a socket that answers EAGAIN: success, an empty wire, nothing set aside |
| OutputRuns.WriteForced | qi/partB/httpd-2.2.21/server/core_filters.c:760-764 | all bytes up to and including a FLUSH, an EOC or a file that cannot be held are on the wire after a call in which no call of the operating system fails |
| OutputRuns.FlushConn | qi/partB/httpd-2.2.21/server/connection.c:69-85 | after a flush without failed calls nothing is set aside and the wire has grown by exactly what was; the connection is aborted exactly by a failure other than EAGAIN |
| Slices.CutContent | qi/partB/httpd-2.2.21/srclib/apr-util/buckets/apr_buckets_simple.c:28-46 | splitting a shared bucket gives two slices of one allocation with the two parts of its bytes |
| Slices.HarmlessIff | qi/partB/httpd-2.2.21/srclib/apr-util/buckets/apr_brigade.c:416-468 | for given buckets and allocation sizes, apr_brigade_write of the next bucket conserves all bytes whatever they are, those of all other buckets included, if and only if it writes to a new allocation, to where the bytes are already, or to where no other bucket is looking |
| Slices.InLineIsHarmless | qi/partB/httpd-2.2.21/srclib/apr-util/buckets/apr_brigade.c:416-468 | that is so whenever the brigade is in line: in each allocation the held buckets follow on its last bucket in the order of their bytes, and no bucket handed out, to whatever brigade, has bytes behind them |
| Slices.InLineWrite | qi/partB/httpd-2.2.21/srclib/apr-util/buckets/apr_brigade.c:416-468 | writing keeps a brigade in line with what is held and with everything else |
| Slices.InLineCut | qi/partB/httpd-2.2.21/srclib/apr-util/buckets/apr_buckets_simple.c:28-46 | moving the front of a split bucket brings the brigade in line, as long as no bucket handed out lies behind those held |
| Slices.TidyPeeked | qi/partB/httpd-2.2.21/server/core_filters.c:276-299 | a peek, whose copy in the brigade shares the bytes that stay held, keeps that order of handed out and held buckets, but does not bring the brigade in line |
| Slices.WritesShare | qi/partB/httpd-2.2.21/srclib/apr-util/buckets/apr_brigade.c:421-465 | short writes after each other share one bucket of 8000 bytes |
| Slices.NoRoomLeft | qi/partB/httpd-2.2.21/srclib/apr-util/buckets/apr_brigade.c:435-450 | what does not fit behind the last bucket gets a bucket without room |
| Reading.FetchKeeps | qi/partB/httpd-2.2.21/server/core_filters.c:238-240 | reading the first bucket turns the socket into a bucket of its own memory: no byte is lost or changed, and what was in line stays so |
| Reading.HandOverKeeps | qi/partB/httpd-2.2.21/srclib/apr-util/buckets/apr_brigade.c:318-346 | one step of reading a line into a brigade in line: up to the LF, or the whole bucket, moved when it is large and written behind the brigade when it is short; no byte of the buffer, of the brigade or of any other bucket is lost or changed |
| Reading.LinesKeep | qi/partB/httpd-2.2.21/srclib/apr-util/buckets/apr_brigade.c:304-354 | the same for all steps of a line, whatever the socket answers |
| Reading.LinesAreLines | qi/partB/httpd-2.2.21/srclib/apr-util/buckets/apr_brigade.c:304-354 | a line has no LF but at its end; if it has none and is under the limit, all that was held is handed over and the file has ended or the socket has reported EAGAIN last |
| Reading.ServeKeeps | qi/partB/httpd-2.2.21/server/core_filters.c:271-303 | reading takes the front of the buffer and leaves the rest; peeking hands over a slice of the same memory and leaves everything; neither changes a byte anywhere |
| Reading.FilterKeeps | qi/partB/httpd-2.2.21/server/core_filters.c:101-305 | one call of any of the three modes: delivered ++ buffer' is buffer ++ what came from the socket, the brigade grows by what was delivered, and no other bucket changes, for a line on condition that its brigade is in line; reading and reading lines leave it in line |
| Reading.FilterServes | qi/partB/httpd-2.2.21/server/core_filters.c:238-304 | a read or peek gives the front of the first bucket, up to the requested number, and asks the socket only when nothing is held; it gives nothing only at EOF, on an error, or when the socket would block |
| Reading.FilterPeeks | qi/partB/httpd-2.2.21/server/core_filters.c:276-303 | a peek is a copy of the bucket that is held first afterwards, which is cut if need be |
| Reading.FilterEnds | qi/partB/httpd-2.2.21/server/core_filters.c:114-266 | a successful read that gives nothing has found the socket blocking, or the end of the file: then a blocking read, but no peek, hands over an EOS, and every later call of any mode reports EOF |
| Reading.FilterErrors | qi/partB/httpd-2.2.21/server/core_filters.c:152-251 | a call of any mode is an error if and only if it has read the socket and the last answer was a failure |
| Reading.NothingComes | qi/partB/httpd-2.2.21/server/core_filters.c:247-252 | when nothing is held and the socket has nothing, brigade, buffer and memory stay as they are: EAGAIN is success with nothing, and a failure is an error |
| Reading.LineLimit | qi/partB/httpd-2.2.21/srclib/apr-util/buckets/apr_brigade.c:318-350 | a line stops at the first bucket with which it reaches the limit |
| Reading.LongBucketStays | qi/partB/httpd-2.2.21/srclib/apr-util/buckets/apr_brigade.c:318-340 | a bucket of more than 2000 bytes, or with an LF, is not copied: it, or its front up to the LF, moves |
| Reading.LinesAddData | qi/partB/httpd-2.2.21/srclib/apr-util/buckets/apr_brigade.c:304-354 | a line adds only buckets with data |
| InputFilter.Normalize | qi/partB/httpd-2.2.21/server/core_filters.c:64-78 | dropping empty data buckets keeps the bytes and the order |
| InputFilter.Partition | qi/partB/httpd-2.2.21/srclib/apr-util/buckets/apr_brigade.c:104-188 | the brigade is cut at exactly the given byte, splitting a bucket if need be |
| InputFilter.CutInside | qi/partB/httpd-2.2.21/srclib/apr-util/buckets/apr_brigade.c:119-168 | a cut inside a bucket gives the two parts of the stream |
| InputFilter.CoreInput.Serve | qi/partB/httpd-2.2.21/server/core_filters.c:271-303 | cutting, moving aside, copying and putting back come to what Reading.Served says: the front is taken, or a slice of it copied and everything kept |
| InputFilter.CoreInput.ReadUpTo | qi/partB/httpd-2.2.21/server/core_filters.c:238-304 | one read of the head bucket, of which the first bytes up to the requested number are served; an empty blocking read ends the stream, with an EOS when reading |
| InputFilter.CoreInput.HandOverLine | qi/partB/httpd-2.2.21/srclib/apr-util/buckets/apr_brigade.c:318-346 | the three branches of a turn have the effect of Reading.HandOver on memory, brigade and buffer, also for brigades that are not in line |
| InputFilter.CoreInput.SplitLine | qi/partB/httpd-2.2.21/srclib/apr-util/buckets/apr_brigade.c:304-354 | the loop has the effect of Reading.Lines for every brigade, in line or not, every buffer and every sequence of socket answers |
| InputFilter.CoreInput.Filter | qi/partB/httpd-2.2.21/server/core_filters.c:101-305 | one call of any of the three modes is the function Reading.FilterCall of buffer, brigade, memory and socket answers; it conserves the bytes and leaves all other buckets alone, for a line on condition that its brigade is in line, which reading keeps; it is an error exactly if the socket failed last, and EAGAIN with nothing held is success that changes nothing; a peek leaves the buffer as it is after its socket read, and is empty only if there is nothing to peek at |
| InputRuns.StepKeeps | qi/partB/httpd-2.2.21/server/core_filters.c:101-305 | after a call, if a line went to a brigade in line with all that was ever handed out: all slices ever handed out have the bytes they had, and those handed out for good, as they look now, followed by the buffer are what came from the socket |
| InputRuns.RunConserves | qi/partB/httpd-2.2.21/server/core_filters.c:126-305 | the same over every run of the three modes into any number of brigades, as they look in memory at its end |
| InputRuns.CleanLines | qi/partB/httpd-2.2.21/server/protocol.c:228-233 | it is enough that every line goes to a brigade that was cleaned first, whatever is read and peeked into other brigades in between |
| InputRuns.ReadAll | qi/partB/httpd-2.2.21/server/core_filters.c:101-305 | the filter itself, called with any sequence of requests, makes exactly that run, and so conserves the bytes in memory |
| InputRuns.PeekThenRead | qi/partB/httpd-2.2.21/server/core_filters.c:238-304 | a non-empty peek is exactly what the next read returns, without touching the socket again, and keeps its bytes |
| InputRuns.CleanBrigade | qi/partB/httpd-2.2.21/server/protocol.c:228-233 | a brigade that was cleaned first is in line with others exactly if what is held is in order with them |
| InputHarm.LineSafeIff | qi/partB/httpd-2.2.21/srclib/apr-util/buckets/apr_brigade.c:304-354 | a whole call for a line with nothing held keeps and conserves all bytes, whatever they are and whatever the socket answers, if and only if no bucket anywhere has bytes behind the last bucket of the brigade in its allocation |
| InputHarm.CallBounded | qi/partB/httpd-2.2.21/srclib/apr-util/buckets/apr_brigade.c:416-468 | no allocation ever exceeds 8000 bytes, so that the length limit of a line never spares a bucket |
| InputHarm.LineAfterReads | qi/partB/httpd-2.2.21/srclib/apr-util/buckets/apr_brigade.c:416-468 | where that fails without a peek: READBYTES 2 of abcdef into q, READBYTES 4 into r, then the line xy into q turns the cdef that was delivered in r into xyef |
| InputHarm.PeekThenLine | qi/partB/httpd-2.2.21/server/core_filters.c:276-295 | where it fails after a peek: a peek at 2 of abcdef and a whole call for a line into the same brigade give ab and then ababef; cd is lost |
| ReaderLaws.SameNameIs | qi/partB/httpd-2.2.21/server/config.c:1064-1071 | two names are the same exactly if they differ in nothing but the case of the 26 letters |
| ReaderLaws.EmptyLine | qi/partB/httpd-2.2.21/server/config.c:975-988 | comments, empty lines and lines without a word change nothing |
| ReaderLaws.PlainLine | qi/partB/httpd-2.2.21/server/config.c:991-1005 | a first word that does not begin with '<' becomes a directive with the rest of the line as its arguments, without a '>' at its end |
| ReaderLaws.SectionLine | qi/partB/httpd-2.2.21/server/config.c:991-1046 | <name args and <name> args open a section of that name; without arguments these are > |
| ReaderLaws.ClosingLine | qi/partB/httpd-2.2.21/server/config.c:1053-1076 | </name> closes the innermost section exactly if it has this name in any case, and makes it a directive with its name, its arguments and what was read since; otherwise it is an error |
| ReaderLaws.BadClosingLine | qi/partB/httpd-2.2.21/server/config.c:1047-1061 | a closing line is an error when no section is open or its word has no '>' at the end |
| ReaderLaws.IfDefineLaw | qi/partB/httpd-2.2.21/server/core.c:2148-2185 | <IfDefine name> is read like its body exactly if the name is defined, and <IfDefine !name> exactly if it is not; otherwise like nothing, or as an error if the body cannot be skipped |
| ReaderLaws.IfModuleLaw | qi/partB/httpd-2.2.21/server/core.c:2073-2128 | the same for <IfModule and the known modules |
| ReaderLaws.Conditional | qi/partB/httpd-2.2.21/server/core.c:2073-2185 | the same for both, for opening and closing words in any case and whatever follows the last '>' of the argument; without a name before that it is an error |
| ReaderLaws.BadConditional | qi/partB/httpd-2.2.21/server/core.c:2148-2169 | a condition without '>', with a blank, or with no name before its '>' is an error |
| ReaderLaws.EndsOnly | qi/partB/httpd-2.2.21/server/config.c:1107-1110 | only </IfDefine> or </IfModule> alone on its line ends a section that holds |
| ReaderLaws.SkipStops | qi/partB/httpd-2.2.21/server/config.c:1370-1413 | a section that fails is skipped over any well-nested body to the first closing word left over, whatever its last character and whatever follows it; another name, or the end of the file, is an error |
| ReaderLaws.OpenAtTheEnd | qi/partB/httpd-2.2.21/server/config.c:1104-1126 | a section left open inside a conditional section that holds is closed silently where the file ends |
| ConfigGrammar.Absorb | qi/partB/httpd-2.2.21/server/config.c:1085-1257 | reading a well-nested body adds exactly its trees at the present place, in either reading loop and at any depth |
| ConfigGrammar.ReaderReads | qi/partB/httpd-2.2.21/server/config.c:1208-1257 | whatever the grammar derives is read, and the trees are the derived ones |
| ConfigGrammar.Unambiguous | qi/partB/httpd-2.2.21/server/config.c:961-1083 | a file derives at most one forest |
| ConfigGrammar.ReaderIsParser | qi/partB/httpd-2.2.21/server/config.c:961-1083 | without conditional sections the reader accepts exactly the well-nested files (names equal up to case, every close with its '>') and returns exactly the derived forest |
| ConfigGrammar.PrintThenRead | qi/partB/httpd-2.2.21/server/config.c:961-1083 | reading the printed form gives the tree back, for all trees in which plain directives have no children, sections have arguments, and no name ends in '>' |
| ConfigGrammar.SoakThrough | qi/partB/httpd-2.2.21/server/config.c:1370-1413 | over a body that is well nested, whatever its conditions, the skipper stops right behind it or fails, and it fails exactly when an opening line has text after the '>' of its first word |
| ConfigGrammar.DerivableIsNested | qi/partB/httpd-2.2.21/server/config.c:961-1083 | every body that can be read is well nested in that sense |
| ConfigGrammar.TrueConditional | qi/partB/httpd-2.2.21/server/config.c:1085-1126 | at any place and depth, a conditional section that holds is read like its body without the two marker lines, the same trees and the same next line, for every well-nested body, those that cannot be read included: then both fail |
| ConfigGrammar.FalseConditional | qi/partB/httpd-2.2.21/server/config.c:1370-1413 | at any place and depth, one that fails gives the tree without the block, and the same next line, for every well-nested body, conditions that cannot be judged included, exactly unless the body trips the skipper: then it is an error |
| ConfigGrammar.UnclosedConditional | qi/partB/httpd-2.2.21/server/config.c:1104-1126 | without its closing line a section that holds is still as good as its body and ends silently with the file, while one that fails is an error, for every well-nested body |
| ConfigGrammar.SkipperTrips | qi/partB/httpd-2.2.21/server/config.c:1396-1405 | a well-nested body that reads well but cannot be skipped |
| TreeLayout.LayoutAppend | qi/partB/httpd-2.2.21/server/util_cfgtree.c:21-45 | the links of two forests side by side are the links of each, joined at one next pointer |
| TreeLayout.RiseKeepsRecords | qi/partB/httpd-2.2.21/server/config.c:1056-1076 | closing a section moves no link: the zipper before and after stands for the same nodes |
| TreeLayout.UnwindKeepsRecords | qi/partB/httpd-2.2.21/server/config.c:1104-1125 | nor does leaving open sections behind at the end of a file |
| TreeLayout.AddRecords | qi/partB/httpd-2.2.21/server/util_cfgtree.c:21-45 | new trees change one link of the old nodes, the one at the present place |
| TreeLayout.OpenRecords | qi/partB/httpd-2.2.21/server/util_cfgtree.c:35-43 | opening a section makes the same links as a directive without children |
| ConfigTree.Cursor.AddNode | qi/partB/httpd-2.2.21/server/util_cfgtree.c:21-45 | the pair (current, curr_parent) and the links stay those of a zipper, now with the node in place or entered |
| ConfigTree.Cursor.Close | qi/partB/httpd-2.2.21/server/config.c:1073-1075 | the pair moves up one level of the zipper |
| ConfigTree.Cursor.Adopt | qi/partB/httpd-2.2.21/server/config.c:1033-1036 | the walk to the end of a spliced list makes every root, and only roots, a child of the open section |
| ConfigTree.Cursor.Splice | qi/partB/httpd-2.2.21/server/config.c:1014-1037 | splicing a separately built list gives the zipper with that forest added, head pointer included |
| ConfigBuild.SoakEndContainer | qi/partB/httpd-2.2.21/server/config.c:1370-1413 | skips exactly the lines the skipper function skips, with the same failures |
| ConfigBuild.SetHead | qi/partB/httpd-2.2.21/server/config.c:1229-1235 | the head pointer is set by the first node, whichever pointer leads to it |
| ConfigBuild.BuildConfigSub | qi/partB/httpd-2.2.21/server/config.c:961-1083 | one line does to the nodes in memory what it does to the zipper, conditional sections included, and fails on the same lines; what that is, by the characters of the line, says ReaderLaws |
| ConfigBuild.ExecuteNow | qi/partB/httpd-2.2.21/server/core.c:2073-2185 | a conditional line yields the list of nodes of its section, or none, and leaves the reader behind it; which of the two is the subject of ReaderLaws |
| ConfigBuild.BuildContConfig | qi/partB/httpd-2.2.21/server/config.c:1085-1126 | builds exactly the nodes of the section that holds, closing or not |
| ConfigBuild.OpenSections | qi/partB/httpd-2.2.21/server/config.c:1238-1254 | the parent pointers from curr_parent on are the stack of open sections |
| ConfigBuild.HeldMirrors | qi/partB/httpd-2.2.21/server/util_cfgtree.c:21-45 | nodes with the links of a forest are that forest, read by sibling, child and parent pointers |
| ConfigBuild.BuildConfig | qi/partB/httpd-2.2.21/server/config.c:1208-1257 | on top of any tree that is there: no error exactly when the reader function accepts, and then the linked nodes are its forest; otherwise the list of unclosed sections, innermost first |
| ConfigWalk.CmdParms.FindParent | qi/partB/httpd-2.2.21/server/core.c:1065-1077 | finds an enclosing section of a kind by the parent pointers exactly when there is one |
| ConfigWalk.CmdParms.CheckContext | qi/partB/httpd-2.2.21/server/core.c:1079-1126 | the check of settings and parents is the check of the lexical settings and enclosing sections |
| ConfigWalk.CmdParms.WalkConfig | qi/partB/httpd-2.2.21/server/config.c:1181-1206 | walking linked nodes under saved and restored settings does what handing the settings down by value does; on success path, override, server, context and limited are what they were, and server, context and limited also on failure |
| ConfigWalk.CmdParms.PathSection | qi/partB/httpd-2.2.21/server/core.c:1825-2071 | the three path sections set, walk and restore path and override, and attach their configuration after their content |
| ConfigWalk.CmdParms.LimitSection | qi/partB/httpd-2.2.21/server/core.c:1756-1811 | limited is -1 again after the section, and was -1 before it |
| ConfigWalk.CmdParms.VirtualHostSection | qi/partB/httpd-2.2.21/server/core.c:2189-2240 | the content runs under the new server, and the main server is back afterwards |
| ConfigWalk.WalkIsLexical | qi/partB/httpd-2.2.21/server/config.c:1128-1206 | whatever ran before, every directive runs under the settings computed from its enclosing sections alone |
| ConfigWalk.WalkInOrder | qi/partB/httpd-2.2.21/server/config.c:1181-1206 | directives run in the order of the lines, and a section is attached right after its content |
| ConfigWalk.ContextCheckIsNesting | qi/partB/httpd-2.2.21/server/core.c:1079-1126 | what the check reads off the settings is exactly the static rule of which sections may be inside which |
| WalkLaws.ScopeInIs | qi/partB/httpd-2.2.21/server/core.c:1825-2065 | the settings of a place, each from the innermost section that says something about it; a directive has the rights of a per-directory configuration exactly inside <Directory>, <Location> or <Files>, and they exist exactly if all enclosing sections can be read |
| WalkLaws.TopRights | qi/partB/httpd-2.2.21/server/config.c:1749-1777 | outside of these sections the rights are RSRC_CONF, OR_OPTIONS, OR_FILEINFO and OR_INDEXES |
| WalkLaws.WalkTells | qi/partB/httpd-2.2.21/server/config.c:1128-1206 | a walk succeeds if and only if at each place of the text the directive is known, one of the rights of its command is granted there, and its function is content; what it logs, and the numbers it gives to configurations and servers, are what the places say in their order |
| WalkLaws.RanIsRightful | qi/partB/httpd-2.2.21/server/config.c:741-751 | no plain command is run unless it is known by the name of the directive, is not executed on reading, and needs a right that the sections around it grant |
| WalkLaws.AdmitsIs | qi/partB/httpd-2.2.21/server/core.c:1079-1126 | for sections known by their own names, what a place allows can be read off the kinds of the sections around it |
| WalkLaws.ArgumentIs | qi/partB/httpd-2.2.21/server/core.c:1825-1850 | the argument of a section is what stands before its last '>' |
| ServerConfig.ExecuteIs | qi/partB/httpd-2.2.21/server/config.c:1749-1777 | executing a whole tree succeeds if and only if all its places admit what stands there, and then does what they say |
| ServerConfig.LoadConfig | qi/partB/httpd-2.2.21/server/config.c:1749-1777 | lines to tree to execution: loading succeeds exactly if the lines stand for a forest and each place of it allows what stands there, and then does what the places say |
| ServerConfig.LoadPrinted | qi/partB/httpd-2.2.21/server/config.c:1749-1777 | a printed tree is executed like the tree |
| Options.CoreDirConfig.SetOptions | qi/partB/httpd-2.2.21/server/core.c:1443-1516 | the loop over the words accepts exactly words with one of the ten names and allowed bits, and leaves each bit of the three masks as the last word that says something about it says |
| Options.DirectiveByBit | qi/partB/httpd-2.2.21/server/core.c:1443-1516 | a directive is accepted exactly if each word is, up to case, one of the ten names and all its bits are allowed; a bit is on afterwards exactly if a word turned it on and no later word took it away, or it was on and none did; the first bare word takes all bits away |
| Options.OneBareWord | qi/partB/httpd-2.2.21/server/core.c:1462-1500 | a single bare word gives exactly its bits, whatever was there |
| Options.MergeCoreDirConfigs | qi/partB/httpd-2.2.21/server/core.c:228-270 | the merge built field by field in a copy is the merge of the masks, and the two sources stay as they are |
| Options.DirectiveKeepsApart | qi/partB/httpd-2.2.21/server/core.c:1496-1512 | no word leaves an option both added and removed |
| Options.MergeKeepsApart | qi/partB/httpd-2.2.21/server/core.c:245-271 | nor does a merge |
| Options.MergeAssociative | qi/partB/httpd-2.2.21/server/core.c:245-271 | on all bits but OPT_INC_WITH_EXEC the merge is associative |
| Options.GroupingIsChain | qi/partB/httpd-2.2.21/server/core.c:245-271 | so however the merges of a chain are grouped, the bits are those of merging from the outside in |
| Options.ExecAssociativeIff | qi/partB/httpd-2.2.21/server/core.c:254-262 | on every bit, two sections merge associatively into all surroundings that Options directives can make if and only if neither enables includes without exec next to one that leaves exec open |
| Options.DirectiveKeepsMade | qi/partB/httpd-2.2.21/server/core.c:1443-1516 | what set_options makes of a fresh section keeps the shape the previous row relies on |
| Options.SectionOverlays | qi/partB/httpd-2.2.21/server/core.c:1443-1516 | the masks of a section say what its directives do to any bits around it |
| Options.ChainIsReplay | qi/partB/httpd-2.2.21/server/core.c:228-271 | merging a chain of settled sections gives the bits that replaying their directives in order gives |
| Options.UnsettledShows | qi/partB/httpd-2.2.21/server/core.c:245-271 | a section that is not settled disagrees with the replay as soon as a section without Options follows |
| Options.UnmixedSettles | qi/partB/httpd-2.2.21/server/core.c:1443-1516 | a section that does not mix bare words with signed ones is settled |
| Commands.FindCommand | qi/partB/httpd-2.2.21/server/config.c:904-915 | finds the first command of a table with this name in any case, if there is one |
| Commands.Registry.AddModuleCommands | qi/partB/httpd-2.2.21/server/config.c:465-492 | puts the commands of a module in front of every list of the hash, the last command first |
| Commands.Registry.AddModule | qi/partB/httpd-2.2.21/server/config.c:497-559 | links a new module in front and makes its commands known, or fails on version or limit; a module refused for the limit stays linked with its commands unknown; one that is linked already has its commands entered once more, and if it was the last of the list, the list becomes a ring |
| Commands.Registry.FindCommandInModules | qi/partB/httpd-2.2.21/server/config.c:917-931 | finds the first command of the newest module that has one |
| Commands.SearchesAgree | qi/partB/httpd-2.2.21/server/config.c:465-492 | the linear search fails exactly when the hash has no entry, and otherwise both name the same module, whose last entry in the hash is the command found |
| Commands.SameCommandIff | qi/partB/httpd-2.2.21/server/config.c:904-931 | the first entry of the hash is the command found exactly when the module has only one of that name |
| Reclaim.ReclaimOnePid | qi/partB/httpd-2.2.21/server/mpm_common.c:124-191 | the process gets the signal of the round, with its time, unless there is nothing left to wait for, and no other process gets anything |
| Reclaim.Round | qi/partB/httpd-2.2.21/server/mpm_common.c:232-274 | one round signals every listed process that is still there once, clears the scoreboard of the others and counts what is left |
| Reclaim.DueInTime | qi/partB/httpd-2.2.21/server/mpm_common.c:193-230 | the pauses are long enough for each row of the table to be due in its round |
| Reclaim.SignalsArePunctual | qi/partB/httpd-2.2.21/server/mpm_common.c:236-246 | rounds that take the next row when it is due send the signals of the table in order, and none early |
| Reclaim.TwelveRoundsAreNotEnough | qi/partB/httpd-2.2.21/server/mpm_common.c:195-230 | twelve pauses do not reach the last row of the table, thirteen do |
| Reclaim.ReclaimChildProcesses | qi/partB/httpd-2.2.21/server/mpm_common.c:193-280 | for any children and any clock that advances at least by each sleep: at most 13 rounds, no access past the table, each round takes the next row exactly when its time has come, every child gets a prefix of three SIGTERMs and a SIGKILL with none before 3, 5, 7 and 9 seconds, and the end comes only when all are gone or after the whole schedule |
| Reclaim.ReclaimStubborn | qi/partB/httpd-2.2.21/server/mpm_common.c:193-280 | a child that stays alive gets exactly three SIGTERMs and a SIGKILL, none early, and is then given up; under a clock that is never late that takes 13 rounds, and the signals come 3.344064, 5.344064, 7.344064 and 9.344064 seconds after the start |
| Reclaim.ThirteenRounds | qi/partB/httpd-2.2.21/server/mpm_common.c:195-280 | the bound of 13 rounds is attained |
| Expansion.Names.Remove | Group63/pi/partC/pipair_java2.java:207 | removes one occurrence, if there is one |
| Expansion.GetCalleeExtend | Group63/pi/partC/pipair_java2.java:199-216 | on any call graph, cyclic ones included, one occurrence of the caller is replaced by the fringe of its call tree unrolled to the remaining depth |
| Expansion.FringeIsChainEnds | Group63/pi/partC/pipair_java2.java:199-216 | that fringe consists of the ends of call chains of full length, or shorter ones that cannot go on |
| Expansion.ExtendIsChainEnds | Group63/pi/partC/pipair_java2.java:156-162 | so these, at the ends of chains of at most expandLevel + 1 calls, are the functions a caller uses after expansion |
| Expansion.Pipair.InitInterLocation | Group63/pi/partC/pipair_java2.java:151-191 | each one- or two-element set of functions is mapped to exactly the callers that use all of it after expansion, and no other set is a key |
| Reach.ReachReducedBug | Group63/pi/partC/pipair_java.java:196-233 | the search with stack, visited set and overwritten levels terminates on every graph and returns what the search function says |
| Reach.HitIsChain | Group63/pi/partC/pipair_java.java:209-229 | a hit means a chain of 1 to expandLevel calls from another direct callee to the partner |
| Reach.ReachedAtOne | Group63/pi/partC/pipair_java.java:212-229 | with one level a search from a callee succeeds exactly when the callee calls the partner, is not the partner, and does not call itself before it |
| Reach.ExactAtOne | Group63/pi/partC/pipair_java.java:196-233 | so without self-recursive callees, and with a partner the caller does not call, the result is exact |
| Reach.GradedIsExact | Group63/pi/partC/pipair_java.java:209-229 | in a graph in which all chains of up to expandLevel + 1 calls to one function have the same length, the search is exact at every level |
| Reach.GoodChainIsFound | Group63/pi/partC/pipair_java.java:196-233 | the search finds the partner whenever some chain of at most expandLevel calls leads to it over functions that each have only one chain length, whatever else is in the graph, if the first function does not call itself |
| Reach.GoodChainsAreExact | Group63/pi/partC/pipair_java.java:196-233 | so it is exact for every partner that has such a chain if it has any within the bound |
| Reach.OverwrittenLevelMisses | Group63/pi/partC/pipair_java.java:216-227 | with two levels a chain of two calls can be missed |
| Miners.SetMiner.AddValueToMap | Group63/pi/partA/pipair_java.java:72-110 | one more callee of a block brings exactly the new keys of the index |
| Miners.SetMiner.Read | Group63/pi/partA/pipair_java.java:44-62 | after reading, the index maps each function and pair to exactly the callers of all of it |
| Miners.SetMiner.PrintBug | Group63/pi/partA/pipair_java.java:117-167 | prints each line once, and exactly the lines that the sizes of the caller sets call for |
| Miners.PrintPair | Group63/pi/partA/pipair_java.java:133-164 | a qualifying function and pair print supportKey minus supportPair lines, one for each caller of the function that does not use the pair |
| Miners.AddToLists | qi/partA/pipair_java.java:95-113 | one more callee of a block adds exactly one occurrence to the lists of the pairs it forms |
| Miners.ListMiner.Read | qi/partA/pipair_java.java:59-78 | after reading, a partner occurs in the list of a function once for each block that has both |
| Miners.ListMiner.PrintBug | qi/partA/pipair_java.java:151-217 | prints each line once, and exactly the lines that the counts of blocks call for |
| Agreement.CountMeasures | qi/partA/pipair_java.java:161-171 | counting blocks gives the number of callers exactly if no caller is counted twice |
| Agreement.AgreeIff | qi/partA/pipair_java.java:87-217 | the two programs print the same for all thresholds if and only if no function with a line to print is called in two blocks of one caller |
| Agreement.OneBlockPerCaller | Group63/pi/partA/pipair_java.java:72-167 | one block for each caller is enough |
| Agreement.TwoBlocksDiffer | qi/partA/pipair_java.java:87-217 | two equal blocks of one caller are enough for a difference |
| Agreement.RunBoth | qi/partA/pipair_java.java:26-83 | from the lines of a call graph on which they agree, both programs print the same multiset of lines |

## Left out

- Buckets.Read: does not model read errors of buckets (core_filters.c ignores them at 630 and 679 and returns an internal error at 797-802), nor memory-mapped files.
- OutputFilter.CoreOutput.Write: does not model pools, ap_save_brigade's copying of bucket data, the logging of sent bytes, or the socket flags of a closing connection.
- OutputFilter.Coalesce: the ring operations at core_filters.c:672-673 are modelled by their effect, which leaves the merged bucket at the head of the temporary brigade.
- InputFilter.CoreInput.Filter: AP_MODE_EATCRLF, AP_MODE_EXHAUSTIVE and AP_MODE_INIT are not modelled; the first looks at memory behind the bucket. Memory that is freed is not modelled.
- InputHarm.LineSafeIff: with buckets held, being in line is sufficient for a whole call but not necessary, since whether a later bucket is written depends on where the line feeds are; exact then is the condition of each single write, Slices.HarmlessIff.
- Buckets.WriteAppends: the output filter writes only into allocations it has just made, so its buckets are plain data.
- ConfigBuild.BuildConfigSub: after a failed conditional section the original still splices what was built before it returns the error; the model returns at once. Messages, line numbers and file names of errors are not modelled.
- ConfigBuild.ExecuteNow: a condition is judged on its one argument; quoting, word splitting and environment variables (ap_getword_conf, ap_resolve_env) are not modelled.
- ConfigWalk.CmdParms.PathSection: canonical paths, regular expressions and address parsing are open functions of a section and its argument, and method masks are sets of method numbers, so a mask with all 64 bits is not confused with -1.
- ConfigWalk.CmdParms.WalkConfig: path and override after a failed walk are not described, since the original does not restore them then; the functions of plain commands are an open predicate.
- Commands.Registry.AddModule: does not model the hash being rebuilt after its pool was cleared, nor the paths stripped from module names.
- Reach.GradedIsExact: for two levels and more this and the good chains are sufficient conditions; which other graphs are searched exactly depends on the iteration order of the callees and is not characterised.
- Miners.SetMiner.PrintBug: confidences are exact quotients; floating-point division and the formatting of percentages are not modelled.
- The regular expressions and the scanner of pipair, its C version, and its variants that combine expansion with the filter.
- Include directives, .htaccess files, module removal and reloading, virtual-host matching, listeners, logging, process startup and shutdown around the reclamation loop.
- The other fields of core_dir_config, and the many setters of one field: each is one branch.
- APR itself: pools, hash tables, memory maps, real sockets and files.
