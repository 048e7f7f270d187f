# A verified model of the Redis server and the HTTP router

The repository holds two small servers written in Go. `redis-go` is a replicated in-memory store: clients
send commands as RESP arrays over a pipelined connection, a leader publishes its writes to followers, and
followers acknowledge how many bytes of that stream they have processed. `http-server-go` routes requests by
matching paths against patterns. This project models both in Dafny and proves what their parts promise to
each other.

Bytes are characters, and a stream of bytes is a string. An object that the Go code updates in place is a
class here (`Reader`, `Lexer`, `Parser`, `KvStore`, `HostContext`, `Channel`, `PubSubManager`), and each of its
methods is proved equal to a function of the old state. What the system promises is then proved about those
functions. A Go panic is a result of its own (`Panic`, `Crash`, `Died`, `Killed`), so the model takes every
input the program takes. Integers are unbounded, and 64-bit wrap-around, range errors of `strconv.Atoi` and
unsigned conversion are written out.

| part | modules |
|---|---|
| bytes, strings, numbers | `GoStrings`, `Bufio` |
| the wire format | `Resp`, `RespGrammar`, `RespParser` |
| the store and its streams | `StreamIds`, `Stores`, `StreamQueries`, `KvStores` |
| commands and transactions | `Hosts`, `HostContexts`, `Runs`, `Transactions`, `ExecRefinement`, `ServerInvariants`, `StoreCommands`, `MultiReads`, `StreamReaders`, `CommandEffects` |
| connections and replication | `Connections`, `Replication`, `Convergence`, `Races`, `Handshake`, `Servers` |
| the publisher | `PubSub`, `PubSubManagers` |
| the RDB file | `Rdb`, `RdbFiles` |
| HTTP routes | `Router` |

## Main results

1. **The wire format.** A value comes back from the parser, with the bytes behind it untouched and every
   byte counted, if and only if its simple strings have no line feed, its bulk strings are not empty and it
   holds neither errors nor integers. On any input at all a parse, failed or not, counts exactly what it
   takes as long as bytes are left behind it.
2. **Convergence.** Whatever any number of connections do to the leader in a serial run, a follower that
   parses and runs the published bytes ends with exactly the leader's strings, whatever the two clocks show.
   Only what is executed and may be published has to read back, and no key may be counted after it was given
   a deadline. This also holds from the first byte of the handshake on, and through the publisher's fan-out
   under any interleaving. Where the run leaves these bounds there are exact conditions: for an INCR under any
   deadlines, for a SET or INCR that does not read back, and for clients whose SETs overlap.
3. **Transactions.** For every interleaving, a connection's queue is exactly its own commands since the
   MULTI that is still open. EXEC leaves the server as the single commands would if and only if the zero
   connection id has no open transaction and the queue does not come to a MULTI; in a run in which no client
   sends MULTI inside a transaction this is so for every EXEC.
4. **Streams.** In every reachable store the ids of each stream increase strictly and are stored in the very
   text that prints them. XRANGE equals a plain filter under an exact condition and panics under another,
   `t-*` gets the least legal number, and a paced XREAD reader is sent every entry exactly once while all
   other connections go on.
5. **Offsets, fan-out, RDB, routes.** The follower's offset corrects itself, and a GETACK is exact, in bytes
   of the stream, under an exact condition. Each subscriber receives one contiguous block of the event
   sequence, and the publisher object refines that state machine. The RDB reader undoes an encoder of the
   layout, and route matching undoes pattern filling.

6. **Every command by name.** For each command as a client writes it, in any letter case, the resulting store,
   published events and transactions and the bytes of the answer are spelled out, errors and missing arguments
   included.

## Where the code does less than one would expect

The model follows the code. Each of these is stated by a lemma.

- An empty bulk string is written as the null bulk string, on which the parser panics with a negative
  count (`EmptyBulkPanics`, and inside any array `UnreadablePanics`). A published command with an empty
  argument therefore ends the follower's process: it executes neither that command nor anything behind it
  (`FollowerDies`), and keeps for good the strings it had (`FollowerStopsAt`). Its strings are then still the
  leader's exactly when a SET changed nothing (`UnreadableSetConvergesIff`), or an INCR counted a hidden "1" to
  1 again (`UnreadableIncrConvergesIff`).
- SET updates the store and publishes in two steps with no lock across them. Two clients that set one key can
  publish in the opposite order (`RaceDiverges`); a follower ends with the leader's strings exactly when each
  key's last publication has the text of its last update (`RaceConvergesIff`).
- When no entry lies at or before the end, or none at or after the start, the stream searches fall back to an
  index that is not the right one. XRANGE then returns an entry outside the range (`RangeFallbackMisleads`,
  `RangeIsFilterIff`), and an XREAD with nothing new returns the whole stream again (`ReadIsNewerIff`,
  `ReadAgainRepeats`).
- XRANGE panics, which ends the process, on an empty stream with an end given, and on bounds out of order that
  have entries between them and on both sides (`RangePanicsIff`). A rejected XADD to an absent key leaves just
  such an empty stream behind: the rejection leaves the store as it was if and only if the key was there
  (`SetStreamKeepsStore`, `RejectedAddArmsPanic`).
- EXEC runs its queue under the zero connection id. A MULTI inside a queue opens a transaction there that
  no client can end, after which no EXEC of any client executes a command again (`QueuedMultiDisablesExec`).
  Two MULTIs of one client are enough to come to that (`MultiCanBeQueued`).
- A passed deadline hides its value from one read only, because the read removes the deadline and not the
  value (`DeadlineHidesOnce`). If a key with a deadline is counted, leader and follower can part
  (`DeadlineDiverges`), and do so exactly when the deadline hides a number other than 0, or a text that is
  none, on one side only (`CountConvergesIff`).
- After a turn of the listener that failed, the next GETACK is answered with an offset that lacks that
  turn's bytes (`GetAckIsExactIff`); one stray byte in front of it is enough (`GetAckMissesBytes`).

## Model

| member | source | states |
|---|---|---|
| GoStrings.AtoiItoa | redis-go/app/resp/parser.go:43-47 | Decimal printing and `strconv.Atoi` are inverse on exactly the 64-bit integers; beyond them Atoi reports a range error with the nearest bound |
| GoStrings.LowerLetters | redis-go/app/cmd/main.go:121 | The capital letters are lower-cased to the small ones |
| GoStrings.LowerOther | redis-go/app/cmd/main.go:121 | A text without ASCII capitals stays as it is |
| GoStrings.AtoiIsValue | redis-go/app/store/kv_store.go:170-173 | `strconv.Atoi` reads exactly the signed decimal numerals within 64 bits, as the value of their digits; a numeral beyond them is a range error with the nearest bound, and anything else is an error |
| Bufio.Reader.ReadString | redis-go/app/resp/lexer.go:65-69 | A read moves bytes through the first delimiter, or all that are left, from the unread part to the read part and loses none |
| RespGrammar.Parse | redis-go/app/resp/parser.go:17-39 | Ends on every byte sequence; a parse that succeeds, or fails with bytes left, counts exactly the bytes it takes, and one that finds the end of the stream counts one byte more |
| RespGrammar.NextToken | redis-go/app/resp/lexer.go:35-69 | A token counts exactly its bytes, takes at least one byte unless the stream is at its end, and reports the end exactly there |
| RespGrammar.ParseElements | redis-go/app/resp/parser.go:68-79 | A successful element loop yields as many values as asked for; it counts exactly the bytes of all it read, also when an element fails with bytes left |
| RespGrammar.RoundTrip | redis-go/app/resp/resp_types.go:90-132 | Parsing the encoding of a readable value of any depth, whatever follows, gives the value, leaves exactly what follows, and counts exactly the encoding |
| RespGrammar.RoundTripIff | redis-go/app/resp/resp_types.go:90-95 | A value comes back if and only if it is readable: simple strings without line feed, non-empty bulk strings, no errors or integers, at any depth |
| RespGrammar.EmptyBulkPanics | redis-go/app/resp/resp_types.go:91-93 | The null bulk string that an empty one is written as makes the parser panic |
| RespGrammar.ParsedIsParsable | redis-go/app/resp/parser.go:28-37 | Nothing that the parser returns, on any input, holds an error, an integer or a simple string with a line feed |
| RespGrammar.UnreadablePanics | redis-go/app/resp/resp_types.go:90-95 | A value that could have been parsed but has an empty bulk string in it, at any depth, makes the parser panic when it is read back, whatever follows |
| RespGrammar.IntegerIsRead | redis-go/app/resp/resp_types.go:151-153 | An integer is written as its decimal text, and the lexer reads that text back as an integer token, leaving and counting exactly what it should |
| RespGrammar.ErrorIsRead | redis-go/app/resp/resp_types.go:69-71 | The same for an error without a line feed and its message |
| RespGrammar.TokenKinds | redis-go/app/resp/lexer.go:44-58 | The token type that each of the six first bytes of a line stands for, with the line as its text |
| RespGrammar.NullIsBare | redis-go/app/resp/lexer.go:55-56 | A null has no text and no line of its own |
| RespGrammar.OtherValuesAreRefused | redis-go/app/resp/parser.go:28-37 | Errors, integers and booleans are refused with their whole line taken and counted |
| RespGrammar.OtherBytesAreRefused | redis-go/app/resp/lexer.go:55-61 | A null, and any byte that begins no value, is refused with just that byte taken and counted |
| RespGrammar.NegativeCountPanics | redis-go/app/resp/parser.go:41-68 | A bulk string or array with a negative count panics |
| RespGrammar.UnreadableCountFails | redis-go/app/resp/parser.go:43-66 | A count that is no 64-bit number is an error, with its line taken and nothing behind it |
| RespGrammar.LineLosesTwo | redis-go/app/resp/lexer.go:65-69 | A line loses its last two bytes whatever the first of them is, and a line shorter than that panics |
| RespGrammar.BulkWithoutCrlf | redis-go/app/resp/parser.go:49-57 | A bulk string without a CRLF behind it is taken by its count, and what follows stays unread and uncounted |
| RespGrammar.ShortBulkFails | redis-go/app/resp/lexer.go:90-101 | A bulk string that the stream cuts short is an error, with what there is of it taken but not counted |
| RespGrammar.PrefixFree | redis-go/app/resp/resp_types.go:121-132 | No encoding of a readable value is a proper prefix of another one, and equal encodings have equal values |
| Resp.ArrayAsRespString | redis-go/app/resp/resp_types.go:121-132 | The builder loop writes the count and then the encoding of every element in order |
| Resp.JoinIsArray | redis-go/app/resp/resp_helpers.go:36-49 | Joining replies that are already encoded gives the encoding of the array of the values they encode |
| RespParser.Lexer.NextToken | redis-go/app/resp/lexer.go:35-63 | The lexer's method does to reader and byte counter exactly what the token function says, end of stream and panic included |
| RespParser.Lexer.ConsumeBytes | redis-go/app/resp/lexer.go:90-106 | A negative count panics, a short read fails with its bytes taken but uncounted, anything else is read whole and counted |
| RespParser.Lexer.ConsumeCrlf | redis-go/app/resp/lexer.go:71-88 | A CRLF ahead is taken and counted; when it is absent nothing is read and the result is an error |
| RespParser.Parser.Parse | redis-go/app/resp/parser.go:17-39 | The recursive parser advances reader and counter exactly as the parse function says |
| RespParser.Parser.ParseArray | redis-go/app/resp/parser.go:61-80 | The element loop appends what the parse function reads, and the first failing element ends it with its own error |
| StreamIds.CompareOrders | redis-go/app/store/kv_store.go:333-343 | `compare` is a three-way comparison of the (time, number) order: zero on equal ids only, negative exactly when the left one is bigger |
| StreamIds.ChosenKeepsIds | redis-go/app/store/kv_store.go:180-198 | An id that XADD accepts extends a strictly increasing list of 64-bit ids above 0-0 to another one; the wrapped number behind the largest is refused |
| StreamIds.GivenIdIsChosen | redis-go/app/store/kv_store.go:180-198 | A given id is accepted, unchanged, exactly when it lies above 0-0 and above the last id, with the error for the first of the two that fails |
| StreamIds.WildcardIsLeast | redis-go/app/store/kv_store.go:169-198 | A wildcard number is the least legal one at its time, and is refused exactly when there is no legal one |
| Stores.AutoNumberIsLeast | redis-go/app/store/kv_store.go:160-205 | XADD with `t-*` succeeds exactly when some 64-bit number makes a legal id, and stores the printed text of the smallest such id |
| Stores.SplitShow | redis-go/app/store/kv_store.go:316-331 | Splitting the printed text of an id gives back its two numbers |
| Stores.SplitTexts | redis-go/app/store/kv_store.go:316-331 | A time alone stands for number 0, and a star for 0-0 |
| Stores.SplitThreeParts | redis-go/app/store/kv_store.go:321-328 | A third part of an id is ignored |
| Stores.GivenIdIsAppended | redis-go/app/store/kv_store.go:160-205 | XADD with an id of two numbers appends exactly that entry under that very text if and only if the id lies above 0-0 and above the last one; otherwise it gives the error of the check that failed first and appends nothing |
| Stores.StarIsNow | redis-go/app/store/kv_store.go:166-168 | A star, and any other id without a dash, asks for the time now and number 0 |
| Stores.StarIsLeast | redis-go/app/store/kv_store.go:169-198 | XADD with the id `t-*` succeeds exactly when there is a legal number at time t, and answers the least one |
| Stores.HugeNumberIsTaken | redis-go/app/store/kv_store.go:171-193 | A number beyond 64 bits acts as a star behind an entry of the same time, and elsewhere as the largest number, or as 1 at time 0 |
| Stores.OddTextsAreTaken | redis-go/app/store/kv_store.go:170-173 | A time that is no number is 0, and a third part is ignored |
| Stores.SetStreamKeepsStore | redis-go/app/store/kv_store.go:144-206 | XADD keeps every stream increasing and properly keyed and appends just its entry; a rejected one changes no entry of any key, leaves the store as it was if and only if the key was there, and otherwise leaves exactly an empty stream under it |
| ServerInvariants.RunKeeps | redis-go/app/store/kv_store.go:144-206 | After any run of commands from any connections every stream is still valid, and no string key has turned into a stream |
| ServerInvariants.HandleKeeps | redis-go/app/cmd/main.go:120-171 | One command, EXEC with everything it runs included, keeps streams valid and strings strings |
| StreamQueries.RangeIsFilterIff | redis-go/app/store/kv_store.go:208-274 | XRANGE gives exactly the entries from start to end, in order and without a panic, if and only if the stated check of ids and bounds holds |
| StreamQueries.RangeIsFilter | redis-go/app/store/kv_store.go:222-227 | With bounds in order, an entry from the start on and an entry up to the end, XRANGE equals the plain filter, also when nothing lies between |
| StreamQueries.RangePanicsIff | redis-go/app/store/kv_store.go:222-227 | XRANGE panics if and only if an end is given for an empty stream, or the bounds are out of order with entries up to the end, from the start on and strictly between |
| StoreCommands.RejectedAddArmsPanic | redis-go/app/store/kv_store.go:149-182 | XRANGE of an absent key is an error; after the rejected `XADD key 0-0` it panics, for every start and every end but `+` |
| StreamQueries.RangeFallbackMisleads | redis-go/app/store/kv_store.go:261-273 | With an end before all of two entries, XRANGE returns the first entry although the filter is empty |
| StreamQueries.ReadIsNewerIff | redis-go/app/store/kv_store.go:276-314 | XREAD gives exactly the entries above the given id if and only if there is such an entry or the stream is empty; otherwise it gives the whole stream |
| StreamReaders.ExactlyOnce | redis-go/app/store/kv_store.go:276-314 | A reader that starts at 0-0, passes on the last id it received and reads again only after something came is sent, with each XREAD, just the entries it lacks, so that it has received the whole stream, each entry once, in order; meanwhile all connections run any commands, EXEC included, that spare the key |
| StreamReaders.HandleGrows | redis-go/app/cmd/main.go:120-171 | A command that neither sets the key, nor counts it while it may have a deadline, only adds to the entries of its stream, and so does an EXEC of such commands |
| StreamReaders.ReadIsAnswered | redis-go/app/cmd/xread.go:7-44 | XREAD of one stream changes nothing and answers with the encoding of exactly what the store finds, or fails without a stream |
| StreamReaders.ZeroKey | redis-go/app/store/kv_store.go:316-331 | The start ids `0-0` and `0` both stand for the id below all others |
| MultiReads.EveryKeyIsAnswered | redis-go/app/cmd/xread.go:7-44 | XREAD of several streams answers if and only if every key holds a stream, and then key by key in order, each from the start that belongs to it |
| StreamQueries.ReadAgainRepeats | redis-go/app/store/kv_store.go:301-313 | Reading again from the last id with nothing new delivers the whole stream a second time |
| KvStores.KvStore.Get | redis-go/app/store/kv_store.go:78-92 | A passed deadline is removed and hides the value; otherwise the value under the key, if any; nothing else changes |
| KvStores.KvStore.Set | redis-go/app/store/kv_store.go:107-119 | Stores the string, and a deadline only for a non-zero expiry, as an unsigned 64-bit sum |
| KvStores.KvStore.SetStream | redis-go/app/store/kv_store.go:144-206 | The object's XADD does to its maps what the store function says, the empty stream of a rejected first entry included |
| KvStores.KvStore.NextId | redis-go/app/store/kv_store.go:160-198 | Parsing, completing and checking the asked id gives the choice of the id function, with 64-bit wrap-around of the next number |
| KvStores.KvStore.FindL | redis-go/app/store/kv_store.go:230-251 | The loop finds the position of the first id at or above the start, and index 0 when there is none |
| KvStores.KvStore.FindR | redis-go/app/store/kv_store.go:253-274 | The backward loop finds one past the last id at or below the end, and the last index when there is none |
| KvStores.KvStore.XReadFindL | redis-go/app/store/kv_store.go:297-314 | The loop finds the position of the first id strictly above the start, and index 0 when there is none |
| KvStores.KvStore.GetStream | redis-go/app/store/kv_store.go:208-228 | The slice between the two searches, a panic when its bounds are out of order, an error for no stream |
| StoreCommands.SetIsRead | redis-go/app/cmd/set.go:11-48 | A GET after a SET answers the very text until the deadline in force has passed, and a GET of any other key answers what it did before |
| StoreCommands.IncrCounts | redis-go/app/cmd/incr.go:13-40 | `m` INCRs of a key that holds the text of `n`, none after its deadline, leave the text of `n + m`, within 64 bits, and every other key and every deadline as it was |
| StoreCommands.IncrWraps | redis-go/app/cmd/incr.go:22-34 | The largest 64-bit number is followed by the smallest |
| StoreCommands.DeadlineHidesOnce | redis-go/app/store/kv_store.go:84-91 | A passed deadline hides its value from one read; the next read finds the value again |
| HostContexts.HostContext.HandleCommand | redis-go/app/cmd/main.go:120-171 | The object's dispatcher changes the server and answers exactly as the command function says, and its recursion with EXEC ends |
| HostContexts.HostContext.HandleExec | redis-go/app/cmd/exec.go:9-36 | Consumes the queue, runs it in order under the zero id up to the first error, and joins the replies |
| HostContexts.HostContext.QueueCommand | redis-go/app/cmd/main.go:74-86 | Appends to the queue of an open transaction; without one it reports an error and changes nothing |
| HostContexts.HostContext.ConsumeTransactionQueue | redis-go/app/cmd/main.go:61-68 | Returns the connection's queue, or an empty one, and closes just that transaction |
| HostContexts.HostContext.HandleSet | redis-go/app/cmd/set.go:11-48 | Stores and publishes as one step, with the panics on missing arguments and the error on a bad expiry |
| HostContexts.HostContext.HandleIncr | redis-go/app/cmd/incr.go:13-40 | Reads, adds one, stores and publishes as one step; refusals publish nothing |
| HostContexts.HostContext.HandleXRead | redis-go/app/cmd/xread.go:7-44 | The loop answers one array per key, and the first key that is no stream ends it with an error |
| HostContexts.HostContext.HandleDiscard | redis-go/app/cmd/discard.go:5-14 | Closes the connection's transaction without running it, or answers the error without one |
| HostContexts.HostContext.HandleMulti | redis-go/app/cmd/multi.go:5-8 | Opens an empty queue under the connection's id |
| Hosts.QueueableName | redis-go/app/cmd/main.go:120-127 | A name that passes the test for queueing is stored in lower case and is neither EXEC nor DISCARD, which is what lets the recursion end |
| CommandEffects.QueuesOthers | redis-go/app/cmd/main.go:124-127 | In a transaction every command but `exec` and `discard` is queued under its lower-case name and answered `+QUEUED` |
| CommandEffects.MultiOpens | redis-go/app/cmd/multi.go:5-8 | `multi` opens an empty queue and answers `+OK` |
| CommandEffects.DiscardCloses | redis-go/app/cmd/discard.go:5-14 | `discard` closes the transaction, leaves store and log alone and answers `+OK`, or answers its error without one |
| CommandEffects.ExecAlone | redis-go/app/cmd/exec.go:10-12 | `exec` without a transaction answers its error and changes nothing |
| CommandEffects.ExecRuns | redis-go/app/cmd/exec.go:9-36 | `exec` closes the transaction, leaves what its commands leave one by one, and answers their number and their answers if none fails |
| CommandEffects.ExecRunsSet | redis-go/app/cmd/exec.go:16-35 | A transaction of one `set` stores and publishes it on `exec`, which answers an array of one `+OK` |
| CommandEffects.SetStores | redis-go/app/cmd/set.go:11-48 | `set` without `px` stores the text, keeps any deadline, publishes itself and answers `+OK` |
| CommandEffects.SetExpires | redis-go/app/cmd/set.go:25-34 | With `px` and any 64-bit number but 0 the deadline is that many milliseconds from now, in unsigned 64 bits |
| CommandEffects.SetRefuses | redis-go/app/cmd/set.go:12-32 | `set` panics on a missing argument or one of another type, fails on an unreadable expiry, and stores and publishes nothing then |
| CommandEffects.GetAnswers | redis-go/app/cmd/get.go:9-33 | `get` answers the text, the null string for an absent, hidden or empty one, and fails on a stream; a passed deadline is removed |
| CommandEffects.TypeAnswers | redis-go/app/cmd/type.go:10-30 | `type` answers string, stream or none, and removes a passed deadline |
| CommandEffects.IncrCountsUp | redis-go/app/cmd/incr.go:13-40 | `incr` of a number stores, publishes and answers the next one, and of an absent key 1 |
| CommandEffects.IncrFails | redis-go/app/cmd/incr.go:18-32 | `incr` answers its error on a text that is no number, fails on a stream, and stores and publishes nothing then |
| CommandEffects.XAddAppends | redis-go/app/cmd/xadd.go:9-28 | `xadd` with an id of two numbers appends the entry and answers the id, if and only if it lies above 0-0 and above the last one, and otherwise answers the error of the check that failed first |
| CommandEffects.XAddSparesStrings | redis-go/app/store/kv_store.go:155-158 | `xadd` to a key that holds a string answers its error and changes nothing |
| CommandEffects.XRangeAnswers | redis-go/app/cmd/xrange.go:5-32 | `xrange` changes nothing, answers the bytes of exactly the entries between the bounds where the check of RangeIsFilterIff holds, and panics exactly where that of RangePanicsIff does |
| CommandEffects.XReadAnswers | redis-go/app/cmd/xread.go:7-44 | `xread` of one stream changes nothing and answers the bytes of its key and the newer entries, or of the whole stream if there are none |
| CommandEffects.QueriesNeedStreams | redis-go/app/store/kv_store.go:212-220 | `xrange` and `xread` fail on a key without a stream |
| CommandEffects.EntryIsSpelled | redis-go/app/cmd/xrange.go:24-29 | An entry is answered as its id and then its field and value, byte for byte |
| CommandEffects.MissingKeyPanics | redis-go/app/cmd/get.go:10 | `get`, `type`, `incr` and `replconf` panic without their argument |
| CommandEffects.XAddMissesArgument | redis-go/app/cmd/xadd.go:10-13 | `xadd` panics without one of its four arguments |
| CommandEffects.XRangeMissesArgument | redis-go/app/cmd/xrange.go:7-9 | `xrange` panics without one of its three arguments |
| CommandEffects.XReadMissesArgument | redis-go/app/cmd/xread.go:12-18 | `xread` panics on a key or start that is no text |
| CommandEffects.ReplConfAnswers | redis-go/app/cmd/replconf.go:10-25 | `replconf` accepts its two handshake options, acknowledges the offset byte for byte on GETACK, and fails on any other option |
| CommandEffects.PingAnswers | redis-go/app/cmd/ping.go:3-5 | `ping` answers `+PONG` |
| CommandEffects.WaitAnswers | redis-go/app/cmd/wait.go:3-5 | `wait` answers 0 |
| CommandEffects.EchoAnswers | redis-go/app/cmd/echo.go:5-13 | `echo` answers its argument, and fails unless it has exactly one |
| CommandEffects.OpenAnswers | redis-go/app/cmd/main.go:130-144 | `config`, `info` and `keys` change nothing, and answer what the model leaves open |
| CommandEffects.PSyncIsEmpty | redis-go/app/cmd/main.go:150-152 | `psync` changes nothing and answers nothing of its own |
| CommandEffects.OtherNamesPanic | redis-go/app/cmd/main.go:167-170 | A command of any other name ends the process and changes nothing |
| Transactions.QueuesOverRuns | redis-go/app/cmd/main.go:50-86 | For every interleaving of connections, a connection has a queue exactly when one of its MULTIs has no later EXEC or DISCARD, and the queue holds exactly its commands since the first such MULTI, in order |
| Transactions.HandleMovesOwn | redis-go/app/cmd/main.go:120-171 | A command moves its own connection's transaction by the protocol, and no other client's, even through EXEC |
| ExecRefinement.ExecRefinesIff | redis-go/app/cmd/exec.go:14-30 | EXEC leaves the same store, log and transactions as running the queue one by one on the connection up to the first error if and only if the check holds; the reply then sums up the single ones, and the queue is gone either way |
| ExecRefinement.ExecReplyIsArray | redis-go/app/cmd/exec.go:29-35 | EXEC succeeds exactly when every single command answers, and its reply is the encoding of the array of the single replies |
| ExecRefinement.RunsStaySound | redis-go/app/cmd/exec.go:18-23 | In every run in which no client sends MULTI inside a transaction, the check holds for every EXEC of every client |
| ExecRefinement.WithoutMulti | redis-go/app/cmd/exec.go:17-30 | A queue without a MULTI never comes to one, whatever the server does |
| ExecRefinement.RunQueueIsOneByOne | redis-go/app/cmd/exec.go:16-30 | The accumulating loop equals sequential execution under the zero id with its outcomes summed up |
| ExecRefinement.ZeroSwallows | redis-go/app/cmd/exec.go:18-23 | With a transaction open under the zero id a queue is moved there, command by command, and nothing runs |
| ExecRefinement.MultiOpensZero | redis-go/app/cmd/exec.go:18-23 | A queue that comes to a MULTI leaves a transaction open under the zero id |
| ExecRefinement.QueuedMultiDisablesExec | redis-go/app/cmd/exec.go:18-23 | After an EXEC that came to a queued MULTI, whatever clients do, no EXEC changes the store or publishes again |
| ExecRefinement.MultiCanBeQueued | redis-go/app/cmd/main.go:124-127 | Two MULTIs of one client on a fresh server leave a queue that comes to a MULTI, so that its EXEC does not refine its commands |
| Connections.PipelineIsServed | redis-go/app/server.go:181-209 | A pipeline of encoded commands is served as the list of those commands: each once, in order, none behind the first that fails |
| Connections.PipelineIsRun | redis-go/app/server.go:181-209 | Without failures the pipeline leaves the server as the run of its commands and writes their answers in order |
| Connections.FailureEnds | redis-go/app/server.go:200-204 | The first command that fails ends the connection: those before it are run and answered, and nothing behind it, whatever it is, is read or answered |
| Connections.GarbageEnds | redis-go/app/server.go:182-190 | Input that is no command ends the connection without an effect, and a count that panics ends the process |
| Servers.ParseServerCommand | redis-go/app/cmd/main.go:88-118 | A command is a non-empty array that starts with a bulk string; everything else is an error, with the parser's accounting |
| Servers.HandleConnection | redis-go/app/server.go:173-210 | The client loop reads, handles and answers as the connection function says, and ends with the first error |
| Servers.ListenerTurn | redis-go/app/server.go:130-167 | One turn of the replication listener: parse, handle, answer GETACK only, and move the offset only when the command was answered |
| Servers.ReplicationListener | redis-go/app/server.go:124-171 | The listener's loop repeats that turn until the stream ends or the process dies, passing over failed turns |
| Replication.ParseCommand | redis-go/app/cmd/main.go:88-118 | Every attempt takes at least a byte, and a successful one counts exactly what it takes |
| Replication.PipelineIsUnambiguous | redis-go/app/server.go:179-190 | Repeated parsing of the concatenation of any list of encoded commands gives exactly that list and then the end |
| Replication.OtherValueIsNoCommand | redis-go/app/cmd/main.go:98-115 | Any readable value that is no array, an empty array, or an array that begins with something else than a bulk string, is refused, and reading goes on behind it |
| Replication.HandleKeepsOffset | redis-go/app/cmd/main.go:120-171 | No command moves the replication offset |
| Replication.OffsetAfterTurn | redis-go/app/server.go:130-167 | After a turn the offset equals the byte counter exactly when a command was parsed and answered in it, whatever turns failed before; any other turn leaves the offset alone |
| Replication.CounterIsBytes | redis-go/app/server.go:130-167 | After any number of turns, failed ones included, the byte counter has grown by exactly the bytes taken off the stream, as long as bytes are left |
| Replication.OffsetOverRun | redis-go/app/server.go:130-167 | After published commands that all complete, the listener is at the follower these lead to one by one, whatever comes behind them, with its offset grown by exactly their length |
| Replication.GetAckOverRun | redis-go/app/cmd/replconf.go:18-21 | In a run without failures GETACK is answered with one text that reads back as REPLCONF, ACK and exactly the length of all commands before it, and the listener goes on behind it |
| Replication.GetAckIsExactIff | redis-go/app/server.go:154-165 | After any turns of the listener, GETACK is answered with one text that reads back as REPLCONF, ACK and a number; the number is exactly that of the stream bytes before the GETACK if and only if it comes first or the turn before parsed a command and answered it |
| Replication.GetAckMissesBytes | redis-go/app/server.go:131-141 | A fresh follower whose stream begins with one stray byte answers the GETACK behind it with 0 |
| Replication.GetAckNames | redis-go/app/server.go:161-163 | GETACK is told by the command and its option in any letter case, and by nothing else |
| Replication.OtherTurnsAreSilent | redis-go/app/server.go:159-163 | Nothing but the answer to a GETACK is ever sent to the leader |
| Replication.TurnEnds | redis-go/app/server.go:132-157 | A handler's error, like input that is no command, is passed over; a panic ends the process; only the end of the stream ends the loop |
| Replication.ListenTakesTurns | redis-go/app/server.go:130-167 | After any turns, failed ones included, the listener goes on with the rest of the stream |
| Convergence.ApplySyncs | redis-go/app/cmd/set.go:38-40 | A command that is not published leaves the leader's strings alone; one that is has the same effect on the follower's, under any clocks and deadlines, if it is no INCR of a key that got one before |
| Convergence.XAddKeepsStrings | redis-go/app/store/kv_store.go:149-158 | XADD publishes nothing and changes no string and no deadline |
| Convergence.HandleFollows | redis-go/app/cmd/main.go:120-171 | Whatever one command makes the leader publish, EXEC and its queue included, brings a follower that reads it back in step; commands that are only queued, or never published, are free |
| Convergence.FollowerConverges | redis-go/app/server.go:130-155 | After any serial run at the leader in which what is executed and may be published reads back and no key is counted after it was given a deadline, a follower that parses and runs the published bytes has exactly the leader's strings, under any two clocks, and its offset has grown by exactly those bytes |
| Convergence.PlainRunIsReplicable | redis-go/app/cmd/main.go:120-171 | Those conditions hold of a run in any order and with any transactions if every command by itself reads back and no key of an INCR is ever given a deadline |
| Convergence.FollowerDies | redis-go/app/server.go:130-141 | A published command with an argument that does not read back ends the follower's process with its server as it was, whatever follows |
| Convergence.FollowerStopsAt | redis-go/app/server.go:130-155 | After any replicable run, one such command leaves the follower for good with the strings the leader had before it |
| Convergence.UnreadableSetConvergesIff | redis-go/app/cmd/set.go:38-40 | After a published SET that does not read back the strings are the same if and only if the key already held that text |
| Convergence.UnreadableIncrConvergesIff | redis-go/app/cmd/incr.go:34-37 | After a published INCR that does not read back the strings are the same if and only if the leader's deadline hid the text 1 |
| Races.BothStepsAreSet | redis-go/app/cmd/set.go:38-40 | An update and a publication of one client, with nothing between them, are what SET does |
| Races.RaceConvergesIff | redis-go/app/cmd/set.go:38-40 | For every interleaving of the two steps of any clients' SETs, once all have published, the follower has the leader's strings if and only if for every key the last publication has the text of the last update |
| Races.RaceDiverges | redis-go/app/cmd/set.go:38-40 | Two clients that set one key to two texts and publish in the opposite order leave the follower with other strings |
| Races.ExclusiveConverges | redis-go/app/cmd/set.go:38-40 | If no client starts to set a key that another one is still setting, the follower ends with the leader's strings in every interleaving |
| Convergence.EventSurvivesIff | redis-go/app/resp/resp_types.go:90-95 | A published command comes back as itself if and only if all its arguments read back |
| Convergence.IncrKeepsStringsIff | redis-go/app/cmd/incr.go:15-34 | Under any deadlines a published INCR keeps the strings of two stores equal if and only if the deadline hides the key on both or on neither, or the key holds no string or the number 0 |
| Convergence.CountConvergesIff | redis-go/app/server.go:130-155 | The same for an INCR at the leader and the follower's listener that replays its bytes |
| Convergence.DeadlineDiverges | redis-go/app/cmd/incr.go:15-34 | A leader's run of `SET key n px 1` and `INCR key`, and the follower that listens to it, end with different strings when the deadline has passed by one clock only, for every number other than 0 |
| Handshake.HandlePSync | redis-go/app/cmd/psync.go:12-59 | The leader writes the FULLRESYNC line and the framed payload, subscribes, writes the events in order until the subscription ends or a write fails, and unsubscribes |
| Handshake.WireIsStream | redis-go/app/cmd/psync.go:12-59 | The bytes of those writes are the preamble followed by the events, with nothing between them |
| Handshake.PreambleIsSpelled | redis-go/app/resp/resp_helpers.go:17-19 | The preamble byte for byte: FULLRESYNC, the replica id and offset 0, and the framed payload |
| Handshake.SerializeRdb | redis-go/app/rdb/rdb.go:321-327 | The payload is framed by its length line, without a CRLF behind it |
| Handshake.PSync | redis-go/app/replication/repl_client.go:67-92 | The follower sends the PSYNC request, and takes one line and then the payload |
| Handshake.RequestIsPSync | redis-go/app/replication/repl_client.go:70-74 | The leader reads that request as the PSYNC command and stops right behind it |
| Handshake.DeserializeRdb | redis-go/app/rdb/rdb.go:330-354 | Skips one byte, reads a length line and that many bytes; a payload cut short is padded with zeros and not noticed |
| Handshake.ShortPayload | redis-go/app/rdb/rdb.go:341-348 | A payload that ends early is padded with zeros, and one that does not begin is an error |
| Handshake.BadPayload | redis-go/app/rdb/rdb.go:336-341 | A negative length panics, and one that is no number is an error |
| Handshake.CutReplyFails | redis-go/app/replication/repl_client.go:161-164 | A leader that hangs up within its first line is an error |
| Handshake.HandshakeStopsAtStream | redis-go/app/replication/repl_client.go:67-92 | For any payload bytes and anything behind them, the handshake returns the payload and stops at the first byte behind it |
| Handshake.JoinReadsCommands | redis-go/app/server.go:124-132 | Behind the handshake the follower parses exactly the list of commands that was sent |
| Handshake.JoinedFollowerConverges | redis-go/app/cmd/psync.go:14-58 | From the leader's answer to PSYNC on, the follower ends with the leader's strings, its offset the number of published bytes only |
| Handshake.SubscribedFollowerConverges | redis-go/app/replication/pubsub_manager.go:60-68 | The same for the bytes that the fan-out put on the follower's own channel, in any interleaving with other subscribers |
| PubSub.NextKeeps | redis-go/app/replication/pubsub_manager.go:39-68 | Every step of either loop keeps each channel's received events one block of the event sequence |
| PubSub.DeliveredIsBlock | redis-go/app/replication/pubsub_manager.go:59-68 | In every interleaving a channel has received, without gap or repeat, the events from its registration to its removal or to the current one |
| PubSub.NothingAfterRemoval | redis-go/app/replication/pubsub_manager.go:50-54 | After its removal a channel receives nothing more, and its block ends with the events started before |
| PubSub.OneDelivery | redis-go/app/replication/pubsub_manager.go:39-68 | A subscription, an event and its delivery are a run of the machine, and the channel holds that event |
| PubSubManagers.PubSubManager.Handle | redis-go/app/replication/pubsub_manager.go:42-56 | Registration adds or replaces a subscriber's channel, removal deletes it; to the state machine this is one step |
| PubSubManagers.PubSubManager.Receive | redis-go/app/replication/pubsub_manager.go:61-62 | The fan-out loop takes an event before it has the lock: one step of the state machine that touches no channel |
| PubSubManagers.PubSubManager.FanOut | redis-go/app/replication/pubsub_manager.go:61-67 | Every registered channel gets the event exactly once and no other channel gets anything; to the state machine this is a run of the lock, the sends in some order, and the unlock |
| Rdb.LittleEndianInverts | redis-go/app/rdb/rdb.go:283-313 | Reading the little-endian bytes of a number of any width gives the number |
| Rdb.DecodeInvertsEncode | redis-go/app/rdb/rdb.go:48-262 | For any header, sections of any kind and order and number, and end of the file, the reader returns exactly what the sections mean |
| Rdb.DatabaseIsExact | redis-go/app/rdb/rdb.go:170-241 | A database with distinct keys is read as exactly its entries: these keys, values and expiries, and no others |
| Rdb.UnknownSectionFails | redis-go/app/rdb/rdb.go:243-257 | A file with another byte where a section should begin, or an end marker without a checksum, is refused |
| Rdb.UnknownAttributeFails | redis-go/app/rdb/rdb.go:139-140 | An attribute of another name is refused |
| Rdb.OtherBitsFail | redis-go/app/rdb/rdb.go:117-119 | Another word size than 64 is refused |
| Rdb.MissingSizesFail | redis-go/app/rdb/rdb.go:156-158 | A database section without table sizes is refused |
| Rdb.OtherTypeFails | redis-go/app/rdb/rdb.go:236-239 | A value of another type than string is refused |
| RdbFiles.ReadRdbFromFile | redis-go/app/rdb/rdb.go:48-262 | The section loop over the reader gives what the file function says, errors included |
| RdbFiles.ReadDatabase | redis-go/app/rdb/rdb.go:143-242 | The entry loop fills both maps as the entry function says, with one byte of look-ahead for expiries |
| Router.Match | http-server-go/app/lib/http/router.go:37-92 | The matching loop succeeds with its bindings exactly when the parts of the lower-cased path agree with the segments |
| Router.GetSegments | http-server-go/app/lib/http/router.go:94-132 | The compiling loop cuts a pattern into the same parts as the matcher cuts a path |
| Router.MatchesIff | http-server-go/app/lib/http/router.go:37-92 | A route matches exactly when its parts agree with the segments in number and in every literal; each variable is bound to the part at its last place, nothing else is bound, and nothing on failure |
| Router.TokensOfJoined | http-server-go/app/lib/http/router.go:60-73 | Cutting a path undoes joining non-empty parts without slashes |
| Router.SlashInFront | http-server-go/app/lib/http/router.go:99-108 | The slash in front of a path can be left out |
| Router.SlashBehind | http-server-go/app/lib/http/router.go:110-115 | A slash behind a path makes no difference, with the one in front or without |
| Router.RootPath | http-server-go/app/lib/http/router.go:94-129 | The root path has one empty part, and the empty path has none |
| Router.EmptyPart | http-server-go/app/lib/http/router.go:60-73 | Two slashes in a row enclose an empty part |
| Router.MatchInvertsFilling | http-server-go/app/lib/http/router.go:94-132 | A pattern with distinct names, filled with plain values, is matched by its own compiled segments, and binds each name to its value in lower case and nothing else |

## Left out

- Sockets, goroutine scheduling, file opening, flags, logging and process exit: streams are finite byte
  sequences, and concurrency is a sequence of atomic steps.
- Partial reads of `bufio`: a read delivers all it was asked for when the stream has it. A `bufio.Reader`
  wrapped again stays the same reader, as in Go.
- Strings are bytes, and lower-casing covers ASCII letters only; Go's `strings.ToLower` folds all of Unicode.
- Allocation limits: a count so large that Go cannot allocate the buffer is read as any other count.
- The store update and the publication of a handler are one atomic step; only `Races` splits SET without a
  deadline into its two steps, and INCR, which also reads before it writes, is not split.
- The clock is a function of how many commands have read it, non-negative and within 64 bits; a handler reads
  it once, where INCR reads it twice in Go.
- CONFIG, INFO and KEYS answer with whatever a parameter says, and PING, ECHO, TYPE and WAIT carry no results of their own.
- PSYNC inside the command handler is an empty answer. What it writes is in `Handshake`, and what its
  subscription delivers is in `PubSub`.
- ExecReplyIsArray: a queue with PSYNC is excluded, because PSYNC has no reply of its own.
- Progress of the fan-out: a follower that does not read can block it while it holds the lock. Only the order
  and the extent of what is delivered are stated.
- The closing of a subscriber's channel, which can race with a send on it. HandlePSync is given the events of its
  subscription and the number of writes that succeed.
- FollowerConverges: what is executed and may be published has to read back, and a key is not counted after it
  was given a deadline; UnreadableSetConvergesIff, UnreadableIncrConvergesIff, CountConvergesIff and
  DeadlineDiverges say why. A follower's own clients are not part of it.
- The PING and REPLCONF exchanges before PSYNC, the generation of the replica id, base64, and the UUIDs: connection ids are
  parameters, and a client's id is never the zero id.
- Loading an RDB file into the store, the RDB checksum, and Redis's multi-byte lengths, which the code does
  not read either.
- A stream entry holds one field, which is all that XADD stores.
- After a panic the model keeps the state reached so far; in Go the process is gone.
- HTTP requests, responses, file handlers and route registration.
