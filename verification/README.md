# A verified model of the driver, codec and cluster cores

This project models, in Dafny, the parts of the repository whose correctness is hard to see from one function at a
time, and proves what they are for. The files follow the packages:

| files | what they model |
|---|---|
| `MySqlBuffer`, `MySqlPackets`, `MySqlLenEnc`, `MySqlResults`, `MySqlStream`, `MySqlExecute`, `MySqlInterpolate`, `MySqlDsn`, `MySqlWatcher` | the MySQL driver: its read buffer, packet framing, number and string codecs, multi-result reader, over packets and over bytes, prepared-statement encoder, placeholder interpolation, data source names, and the goroutine that watches for cancelled contexts |
| `TomlMachine`, `TomlLexer`, `TomlTokens`, `TomlNumbers`, `TomlStrings`, `TomlMultiline`, `TomlReading`, `TomlTables` | the TOML lexer as a machine on values and as the source's class, the token protocol between it and the parser, the texts of numbers, string quoting, strings over several lines, what they mean, and table contexts |
| `YamlDecode` | YAML node graphs with anchors and aliases |
| `RecWriter` | the coalescing terminal recorder and its frame format |
| `OrmCallbacks`, `OrmWishes` | the order of ORM callbacks: the sorter and when it ends; which wishes it grants |
| `RedisCluster`, `RedisRing` | cluster node generations and their collection; ring shards, votes and the hash ring |
| `Bytes`, `Utf8`, `Strings`, `Slices`, `Wrappers` | what several of them share |

Objects whose methods update their fields are classes here, with loops where the source has loops; every such method
is proved against a function or predicate on values, and the promises are proved of those. The watcher and the
compare-and-swap loop are state machines over the atomic steps of their goroutines. Go panics that must not happen are
preconditions or dead branches. The network is a script of what each read and write does, quantified over.

The standards followed are the MySQL Client/Server Protocol (sections "MySQL Packets", "Sending more than 16Mbyte",
"Protocol::LengthEncodedInteger", "COM_QUERY Response", "COM_STMT_EXECUTE", "COM_STMT_SEND_LONG_DATA"), section 9.1.1 of
the MySQL Reference Manual, TOML v0.4.0 (sections "String" and "Table"), section 3.2.2.2 of YAML 1.1 and section 2.1 of
RFC 3986.

## What the proofs found

Where code and documentation differ, the model follows the code.

- `database/mysql/packets.go:140`: the test that should hold in the first iteration only always holds, so the error
  that promises "nothing was written" may follow frames that were (`NotWrittenPromise`).
- `database/mysql/buffer.go:78-90`: a fill that fails drops the bytes that it received (`Fill`, `LostBytes`).
- `database/mysql/packets.go:807-824`: every packet that starts with 0xfe counts as EOF, so a row whose first value has
  2^24 bytes or more puts the reader out of step (`SkipRowsExactly`).
- `database/mysql/utils.go:547-562`: skipping a string does not notice a length that wraps around (`SkipAgrees`).
- `database/mysql/connection.go:212-300`: two string arguments for adjacent placeholders make one literal
  (`PlaceholderRoundTrip`).
- `database/mysql/packets.go:859-908`: sending a long argument never ends when maxAllowedPacket is 8, and slices out of
  bounds when it is less (`LongDataEndsExactly`).
- `database/mysql/connection_go18.go:148-172`: an operation refused because its context was already over leaves `watching`
  set, and the next operation closes the connection (`FlagLeftByRefusal`, `NextOperationCloses`).
- `encoding/toml/parse.go:281-289`: a comment directly in an inline table runs into a BUG branch, in front of the branch
  that was meant for it (`StuckIsInlineComment`, `InlineCommentIsABug`).
- `encoding/toml/parse.go:431-446`: a value for a path that is an implicit table is accepted and dropped (`KeyValueLine`,
  `ValueIsForgotten`).
- `encoding/toml/lex.go:256-274`: a NUL byte behind a top-level item ends the document (`RunEndsAt`, `NulEndsDocument`).
- `encoding/toml/lex.go:672-680` and `encoding/toml/parse.go:506-514`: in a string over several lines the lexer lets a
  backslash stand before a carriage return, and the parser panics on it (`PanicsExactly`,
  `MultilineExactly`); an escaped backslash at the end of a line is torn apart, which may panic or change the value
  (`TornApart`, `TornExactly`).
- `encoding/toml/parse.go:499-504`: a carriage return and line feed right behind the opening quotes is kept, where TOML drops
  a newline there (`MeaningExactly`, `ReturnExamples`).
- `encoding/yaml/decode.go:744-771`: a merge looks at the last definition of an anchor but decodes the one the alias was
  parsed with, so a graph with a finite expansion can be refused (`RefusedThoughFinite`, `RedefinedIsParsed`).
- `encoding/rec/writer.go:61-106`: the documented error for a writer that is not activated is never returned (`Writer.Write`).
- `database/orm/callback.go:169-193`: the comments of the two branches are exchanged; a wish for a callback registered
  later may not be granted, a callback may be run twice, and some circles of wishes recurse for ever (`GrantedExactly`,
  `RunTwice`, `DivergesExactly`).
- `database/redis/cluster.go:382-424`: a collection in the middle of a state build closes a node of that state when its
  old stamp is below the generation collected (`CollectedInsideBuild`).

## Model

| member | source | states |
|---|---|---|
| MySqlPackets.ParseFrames | database/mysql/packets.go:27-149 | for every payload, whatever precedes it in the same packet and whatever follows on the stream: reading the frames gives back exactly the payload and leaves exactly what follows, with the sequence number advanced by the number of frames, also when the length is a multiple of 2^24-1; an empty payload is the one that is not given back |
| MySqlPackets.SentMeansFrames | database/mysql/packets.go:92-149 | a write that reports success has put on the wire the frames of the payload and nothing else, whatever the connection did to each single write |
| MySqlPackets.FullNetworkSends | database/mysql/packets.go:92-149 | over a connection that takes every write, every payload is sent |
| MySqlPackets.PacketRoundTrip | database/mysql/packets.go:27-149 | after a successful write, a reader gets the payload back and stops exactly behind it if and only if the payload is not empty; both counters have advanced by len/(2^24-1)+1 modulo 256 |
| MySqlPackets.NotWrittenPromise | database/mysql/packets.go:124-147 | "nothing was written", the error that allows a caller to retry, holds for every behaviour of the connection if and only if the payload is shorter than 2^24-1: the "first iteration" test of the source is always true |
| MySqlPackets.HeaderRoundTrip | database/mysql/packets.go:103-117 | the four header bytes give back the length and the sequence number |
| MySqlPackets.Conn.PutHeader | database/mysql/packets.go:103-117 | the header overwrites exactly the four bytes in front of the chunk |
| MySqlPackets.Conn.WriteFrame | database/mysql/packets.go:103-124 | one frame made in place: what goes out is the header and the payload bytes that stood behind it, and only the four header bytes change |
| MySqlPackets.Conn.WritePacket | database/mysql/packets.go:92-149 | the in-place loop refines the frames of the original payload: wire, result, sequence, closing and the remaining behaviour of the connection are those of `WriteAll` on the bytes before the call, although headers were written over bytes of the payload; over-long packets change nothing; memory outside the packet is untouched |
| MySqlPackets.Conn.ReadPacket | database/mysql/packets.go:27-88 | however the connection chops its reads, the result is that of parsing the unread stream: payload, stream left and sequence on success, and on a connection without faults exactly the error the frames call for; the connection is closed exactly when an invalid-connection error is returned (or it was closed before), and nothing is sent but, on closing, one quit command or the beginning of one |
| MySqlPackets.Conn.Close | database/mysql/connection.go:115-143 | a first close sends the quit command as a packet of a new sequence, with the outcome of any packet, if no byte is unread, and nothing otherwise; a second close sends nothing |
| MySqlPackets.Conn.WriteCommandPacket | database/mysql/packets.go:429-445 | a command of one byte goes out as a packet of a new sequence, unless bytes are unread, which is an error that sends nothing |
| MySqlBuffer.Net.Read | database/mysql/buffer.go:70-90 | what a connection may do: deliver some of what is pending, fail, or end |
| MySqlBuffer.Buffer.MakeRoom | database/mysql/buffer.go:41-64 | compaction and growth keep the unread bytes |
| MySqlBuffer.Buffer.Receive | database/mysql/buffer.go:66-90 | repeated reads append exactly what the connection has delivered, until enough is there |
| MySqlBuffer.Buffer.Fill | database/mysql/buffer.go:41-91 | unread buffer ++ unread network is preserved if and only if the fill succeeds or the connection had nothing pending to lose; at the end of the stream only the bytes that were unread before are left; without faults it succeeds exactly when the stream is long enough |
| MySqlBuffer.LostBytes | database/mysql/buffer.go:66-90 | such a fill: two bytes are there to be read before, where three are wanted, and none after |
| MySqlBuffer.Buffer.ReadNext | database/mysql/buffer.go:94-108 | the slice handed out is the next part of the stream, for every chopping of reads |
| MySqlBuffer.Buffer.TakeBuffer | database/mysql/buffer.go:112-130 | memory is lent exactly when no byte is unread, so never memory that holds unread bytes |
| MySqlBuffer.Buffer.TakeSmallBuffer | database/mysql/buffer.go:132-137 | the same for the start of the buffer |
| MySqlBuffer.Buffer.TakeCompleteBuffer | database/mysql/buffer.go:142-147 | the same for the whole buffer |
| MySqlBuffer.ReadMany | database/mysql/buffer.go:94-108 | any sequence of reads hands out consecutive slices of the stream, of the lengths asked for, and without faults all succeed exactly when the stream is long enough for their sum |
| MySqlLenEnc.IntegerRoundTrip | database/mysql/utils.go:564-609 | every 64-bit number, written with a length prefix, is read back with its exact width, whatever follows it |
| MySqlLenEnc.StringRoundTrip | database/mysql/utils.go:529-545 | every string is read back, whatever follows it |
| MySqlLenEnc.SkipAgrees | database/mysql/utils.go:529-562 | for every input, skipping consumes what reading consumes and fails where it fails; it differs only for a length that overflows 64-bit arithmetic, which skipping does not notice (said exactly) |
| MySqlLenEnc.ValueRoundTrip | database/mysql/utils.go:529-545 | a NULL or text value is read back as such |
| MySqlLenEnc.ValuesRoundTrip | database/mysql/packets.go:739-804 | any list of values, with NULLs, is read back in order, whatever follows it |
| MySqlLenEnc.ReadRow | database/mysql/packets.go:758-803 | the reader that moves a position over the row gives what the recursive reader gives, with the same failure |
| MySqlLenEnc.DecimalRoundTrip | database/mysql/utils.go:494-527 | reading the decimal digits of a number gives the number |
| MySqlLenEnc.DecimalSize | database/mysql/utils.go:494-515 | a number below 10^k has at most k digits, so twenty suffice for 64 bits |
| MySqlLenEnc.Uint64ToString | database/mysql/utils.go:494-515 | filling a 20-byte array from its end gives the decimal digits of every 64-bit number; the index never leaves the array |
| MySqlLenEnc.StringToInt | database/mysql/utils.go:517-526 | the fold computes the value of the digits wrapped to a signed 64-bit integer |
| MySqlLenEnc.DecimalThereAndBack | database/mysql/utils.go:494-527 | printing a 64-bit number and reading it gives it back if and only if it is below 2^63 |
| MySqlResults.OkRoundTrip | database/mysql/packets.go:615-633 | the counts and the status of an OK packet are those the server put there |
| MySqlResults.CountRoundTrip | database/mysql/packets.go:540-564 | the column count of a header packet is the one the server put there |
| MySqlResults.EndStatus | database/mysql/packets.go:807-824 | the status taken from the two bytes at offset 3 of an EOF packet is the one the server put there |
| MySqlResults.ColumnRoundTrip | database/mysql/packets.go:639-733 | every column definition is read back field by field |
| MySqlResults.RowStart | database/mysql/packets.go:739-756 | a row packet never starts with 0xff, and starts with 0xfe exactly when its first value has 2^24 bytes or more |
| MySqlResults.SkipColumns | database/mysql/packets.go:807-824 | skipping column definitions stops behind their EOF packet with its status |
| MySqlResults.SkipRows | database/mysql/packets.go:807-824 | skipping well-formed rows stops behind their EOF packet with its status |
| MySqlResults.SkipRowsExactly | database/mysql/packets.go:807-824 | skipping rows stops exactly behind the EOF packet if and only if no row starts with a value of 2^24 bytes or more; otherwise it stops too early |
| MySqlResults.Conn.ReadUntilEof | database/mysql/packets.go:807-824 | the loop stops where `SkipToEof` says, with its error and status, and makes progress |
| MySqlResults.Conn.ReadResultSetHeader | database/mysql/packets.go:540-564 | what the first packet of a result means for count, affected rows, insert id, status and error |
| MySqlResults.Conn.ReadColumns | database/mysql/packets.go:639-733 | for the packets of a server, the definitions are read field by field and the stream is left behind their EOF packet |
| MySqlResults.Conn.DiscardSet | database/mysql/connection.go:351-362 | columns and rows of a set whose header was read are consumed exactly, and the status is that of the last EOF packet |
| MySqlResults.Conn.DiscardResults | database/mysql/packets.go:1127-1145 | all further results are consumed exactly, up to the next command, and the counts are those of the last result that carries counts |
| MySqlResults.Conn.Exec | database/mysql/connection.go:339-363 | `exec` on any sound multi-result response consumes exactly its packets |
| MySqlResults.Query | database/mysql/connection.go:370-413 | `query` stops at the first result set, in step with the server |
| MySqlResults.Rows.Next | database/mysql/rows.go:206-216 | the answer is the next row in server order or the end of the set, and the stream stays in step |
| MySqlResults.Rows.NextResult | database/mysql/rows.go:135-157 | moving to the next result drains what is left of the current one, and ends exactly when the server has sent its last |
| MySqlResults.Rows.NextResultSet | database/mysql/rows.go:159-204 | results without a set are passed over; columns of the next set are those the server sent |
| MySqlResults.Rows.Close | database/mysql/rows.go:100-126 | closing in any position leaves the stream at the next command |
| MySqlResults.Session | database/mysql/rows.go:100-216 | for every sound response and every sequence of Next and NextResultSet ended by Close: the answers are those of the reference cursor over the server's results, and exactly the response is consumed |
| MySqlResults.RowsInOrder | database/mysql/rows.go:206-216 | calling Next until it ends gives the rows of the set in order |
| MySqlResults.ReadAllSeesEverything | database/mysql/rows.go:196-216 | the usual double loop sees every row of every set, in order |
| MySqlStream.Receive | database/mysql/packets.go:27-88 | however the network cuts the bytes of any packets sent one after another, reading them one by one gives just those packets, and the sequence number runs on |
| MySqlStream.ResponseNotEmpty | database/mysql/packets.go:540-830 | no packet of a sound response is empty, so framing loses none |
| MySqlStream.SessionOverBytes | database/mysql/rows.go:100-216 | a session whose response arrives as bytes in reads of any size: the answers are those of the reference cursor, and the connection is left exactly behind the response |
| MySqlExecute.MaskBit | database/mysql/packets.go:998-1005 | bit i%8 of byte i/8 of the NULL bitmap is set exactly when argument i is NULL |
| MySqlExecute.ExecuteRecovered | database/mysql/packets.go:912-1125 | a decoder of COM_STMT_EXECUTE that has the long values recovers every argument from bitmap, types and inline values |
| MySqlExecute.LongDataRecovered | database/mysql/packets.go:859-908 | the chunks of a long argument concatenate to it, before any other commands |
| MySqlExecute.StatementRecovered | database/mysql/packets.go:859-1125 | decoding the commands sent ahead and then the execute packet gives back all arguments |
| MySqlExecute.LongDataBounds | database/mysql/packets.go:859-908 | every chunk command is longer than its head and at most 7 bytes over the chunk size |
| MySqlExecute.LongRoundsEnd | database/mysql/packets.go:859-908 | when a packet has room for a byte of the argument behind the head, the loop over a working network ends after at most one round for each byte, with exactly the chunks |
| MySqlExecute.LongRoundsForever | database/mysql/packets.go:859-908 | with a limit of 8 it sends the same empty command in every round, for ever |
| MySqlExecute.LongRoundsPanic | database/mysql/packets.go:859-908 | with less it sends at most one truncated command and then slices out of bounds |
| MySqlExecute.LongDataEndsExactly | database/mysql/packets.go:859-908 | so for every argument and every limit: it ends if and only if there is nothing to send or the limit is at least 9; it goes on for ever if and only if the limit is 8 |
| MySqlExecute.LongCommandsBounds | database/mysql/packets.go:859-908 | the same for all commands sent ahead of a statement |
| MySqlExecute.WireRead | database/mysql/packets.go:27-149 | commands sent back to back, each with its own sequence numbers, are read off the wire one by one |
| MySqlExecute.ServerGetsArguments | database/mysql/packets.go:859-1125 | from the bytes on the wire, a server that frames, collects long data and decodes obtains exactly the arguments, in order; every command sent ahead has at most maxAllowedPacket-1 bytes |
| MySqlExecute.Stmt.Send | database/mysql/packets.go:92-149 | one command starts a new sequence; what goes out is its frames |
| MySqlExecute.Stmt.PutLongHeader | database/mysql/packets.go:880-896 | the overlaid header is written in front of the chunk only |
| MySqlExecute.Stmt.WriteCommandLongData | database/mysql/packets.go:859-908 | the loop whose headers overlay bytes already sent emits exactly the chunks of the original argument |
| MySqlExecute.Stmt.LongDataLoop | database/mysql/packets.go:859-908 | the same loop for every limit, cut off after a number of rounds: commands sent and outcome (ended, still going on, out of bounds) are those of `LongRounds` |
| MySqlExecute.Stmt.PutType | database/mysql/packets.go:998-1011 | noting one argument's type and NULL bit keeps all earlier ones |
| MySqlExecute.Stmt.PutValue | database/mysql/packets.go:1007-1106 | an argument's bytes are appended, in place or in a larger array, or sent ahead when they are too long |
| MySqlExecute.Stmt.PutHead | database/mysql/packets.go:946-988 | the head is laid out in the lent buffer, or in a new array when that is too small, with a clear bitmap |
| MySqlExecute.Stmt.PutArgs | database/mysql/packets.go:998-1111 | after the loop, bitmap and types tell about every argument and the values stand in order; an unsupported type stops it with just the earlier long values sent |
| MySqlExecute.Stmt.Join | database/mysql/packets.go:1113-1122 | values that outgrew the lent memory are joined to the head; the packet is the same either way |
| MySqlExecute.Stmt.WriteExecutePacket | database/mysql/packets.go:912-1125 | what goes out on success is the long commands followed by the execute packet; a wrong count and a busy buffer are reported exactly when they occur; an unsupported argument is reported at the first one, with only the long commands in front of it sent, and over a network that takes every write exactly when there is one; a packet over the limit, exactly then |
| Slices.Append | database/mysql/packets.go:1013-1023 | append in place while there is room, else in a copy: the contents are the old ones and the new bytes, nothing in front is touched |
| MySqlInterpolate.LiteralRoundTrip | database/mysql/utils.go:629-758 | a string literal, read by section 9.1.1 of the MySQL Reference Manual in the same mode, is the argument, if and only if no quote follows the closing one |
| MySqlInterpolate.PlaceholderRoundTrip | database/mysql/connection.go:187-307 | in any query with any arguments: the literal put for a placeholder is read back as its argument, and what follows as the rest, if and only if the query does not go on with a quote and not with a placeholder whose argument is put as a quoted literal |
| MySqlInterpolate.QuotedStart | database/mysql/connection.go:187-307 | when the interpolated rest begins with a quote, told from the query and the arguments alone |
| MySqlInterpolate.InterpolatedAppend | database/mysql/connection.go:187-307 | interpolation is local: the k-th placeholder gets the k-th argument's literal and other text is kept |
| MySqlInterpolate.PutEscaped | database/mysql/utils.go:629-758 | one byte is escaped by one or two bytes, in either mode |
| MySqlInterpolate.EscapeAt | database/mysql/utils.go:629-758 | the loop writes the escaped argument and stays within 2*len bytes of its start |
| MySqlInterpolate.EscapeInto | database/mysql/utils.go:629-758 | the escaped argument is appended behind the contents of the buffer |
| MySqlInterpolate.Reserve | database/mysql/utils.go:613-624 | room is made in place or in a new array with the old contents |
| MySqlInterpolate.IndexByte | database/mysql/connection.go:201-206 | the first occurrence at or after a position |
| MySqlInterpolate.AppendLiteral | database/mysql/connection.go:212-300 | the literal of each kind of argument is appended |
| MySqlInterpolate.InterpolateParams | database/mysql/connection.go:187-307 | the text is the interpolated query; it declines exactly when the count differs, an argument is of an unsupported type or the text grows past the packet limit, and fails exactly when bytes are unread |
| MySqlDsn.EscapeRoundTrip | database/mysql/dsn.go:111-320 | unescaping an escaped byte string gives it back (section 2.1 of RFC 3986, with + for a blank) |
| MySqlDsn.AtoiRoundTrip | database/mysql/dsn.go:286-296 | a printed 64-bit number is parsed back |
| MySqlDsn.KeyRoundTrip | database/mysql/dsn.go:401-577 | the name under which a parameter is printed is the one under which it is recognised, and no two parameters share one |
| Strings.SplitJoin | database/mysql/dsn.go:401-408 | splitting joined texts at a separator that none of them holds gives them back |
| MySqlDsn.SlotAssigns | database/mysql/dsn.go:401-577 | each of the 17 known parameters: if it is printed, parsing assigns the configured value; if it is not, the default is the configured value |
| MySqlDsn.KnownAssigns | database/mysql/dsn.go:401-577 | all known parameters together assign all known fields |
| MySqlDsn.OthersAssign | database/mysql/dsn.go:562-571 | extra parameters, in any order, are collected into the same map |
| MySqlDsn.LeftRoundTrip | database/mysql/dsn.go:327-373 | user, password, protocol and address are found again in front of the last slash, though user and password may hold @ and / |
| MySqlDsn.RightRoundTrip | database/mysql/dsn.go:375-397 | database name and parameters are found again behind it |
| MySqlDsn.DsnRoundTrip | database/mysql/dsn.go:111-397 | for every printable configuration, in whatever order its extra parameters are printed, parsing gives it back |
| MySqlDsn.FormatDSN | database/mysql/dsn.go:111-320 | the printer writes the text `Format` describes, with the extra parameters in ascending order of their names |
| MySqlDsn.ListParams | database/mysql/dsn.go:297-304 | the names of the extra parameters, each once, in ascending order |
| MySqlDsn.OneOrder | database/mysql/dsn.go:304-304 | a map's names have only one ascending order, so what is printed does not depend on the order in which the map is walked |
| MySqlDsn.Printer.WriteUser | database/mysql/dsn.go:114-122 | [user[:password]@] |
| MySqlDsn.Printer.WriteNet | database/mysql/dsn.go:124-132 | [protocol[(address)]] |
| MySqlDsn.Printer.Param | database/mysql/dsn.go:135-300 | a parameter is set off by ? if it is the first and by & otherwise, so the text is always the joined list of parameters |
| MySqlDsn.ParseDSNParams | database/mysql/dsn.go:401-577 | the loop assigns the parameters one after another and stops at the first error |
| MySqlDsn.ParseAddress | database/mysql/dsn.go:332-372 | the part in front of the last slash is split at its last @ and first : and ( |
| MySqlDsn.ParseDSN | database/mysql/dsn.go:323-397 | the scanning loops compute `Parse` |
| MySqlDsn.ThereAndBack | database/mysql/dsn.go:111-397 | printing and then parsing every printable configuration returns it |
| MySqlWatcher.InvStep | database/mysql/connection_go18.go:148-197 | every step of either goroutine, and every start, cancellation or failure, keeps the invariant |
| MySqlWatcher.InvRun | database/mysql/connection_go18.go:148-197 | so does every run |
| MySqlWatcher.SafeUnderEverySchedule | database/mysql/connection.go:130-153 | after every interleaving: closech has been closed at most once, the cancellation error stored at most once, a send on watcher finds its receiver waiting, and nobody is about to close a closed channel |
| MySqlWatcher.ErrorBlamesTheContext | database/mysql/connection.go:145-153 | if cancel did the closing, the error later returned is that of the context that was watched, and this context really ended |
| MySqlWatcher.FinishIsNeverStuck | database/mysql/connection.go:452-461 | in every reachable state a caller inside finish can go on, or the watcher can step; every such step brings finish nearer |
| MySqlWatcher.FinishGoesAfter | database/mysql/connection.go:452-461 | however the watcher is scheduled, and whatever contexts end in between, a bounded number of its steps lets finish go |
| MySqlWatcher.NoDeadlock | database/mysql/connection_go18.go:148-197 | in every reachable state an operation under way can move on by its own calls or its own end, or, when it waits in finish, after a step of the watcher |
| MySqlWatcher.FlagLeftByRefusal | database/mysql/connection_go18.go:148-172 | after every run: between operations on an open connection, the flag watching is up if and only if the last operation with a context was refused because its context was already over |
| MySqlWatcher.NextOperationCloses | database/mysql/connection_go18.go:148-172 | after every such run, whatever the watcher does and whatever contexts end in between: the next operation closes the connection if and only if the last one with a context was so refused, and no context is to blame for it |
| MySqlWatcher.RefusedContextSpoilsConnection | database/mysql/connection_go18.go:148-172 | a shortest run of that kind |
| TomlStrings.ScanIsWellEscaped | encoding/toml/lex.go:578-596 | what the lexer accepts between quotes has only complete, known escapes |
| TomlStrings.WellEscapedHasNoBug | encoding/toml/parse.go:516-587 | on any such text, undoing the escapes stays in bounds and off every BUG branch |
| TomlStrings.ReplaceEscapes | encoding/toml/parse.go:516-574 | the index loop computes the runes of the text, with the first fault it meets |
| TomlStrings.WriteQuoted | encoding/toml/encode.go:207-209 | the encoder writes the replaced bytes between quotes |
| TomlStrings.ScanQuoted | encoding/toml/encode.go:33-39 | in any input, the lexer finds the end of a quoted text exactly where the encoder put it, unless the text holds a NUL byte |
| TomlStrings.DecodeQuoted | encoding/toml/encode.go:33-39 | quoting keeps every multi-byte sequence, well formed or not |
| TomlStrings.UnescapeQuoted | encoding/toml/parse.go:516-574 | undoing the escapes of a quoted text gives it back when it is UTF-8, and something longer when it is not |
| TomlMultiline.StripIsSplitTrimJoin | encoding/toml/parse.go:506-514 | splitting at each backslash before a line feed, trimming all parts but the first and joining them is one pass over the text |
| TomlMultiline.StripEscapedWhitespace | encoding/toml/parse.go:506-514 | the loop over the parts computes that pass |
| TomlMultiline.StripWellEscaped | encoding/toml/parse.go:506-574 | any text the lexer accepts, with no escaped backslash at the end of a line: what is left of it is well escaped if and only if no escape is begun before a carriage return |
| TomlMultiline.RunesAreWellEscaped | encoding/toml/parse.go:516-574 | undoing escapes gives a value only for a well-escaped text |
| TomlMultiline.PanicsExactly | encoding/toml/parse.go:499-574 | every text at all: read with the line ends and the whitespace behind them gone, as the parser reads it, its first fault is an escape that is none if and only if the parser reaches a BUG branch, and an impossible rune if and only if the parser refuses it; it gets a value if and only if there is no fault |
| TomlMultiline.FaultsAgree | encoding/toml/parse.go:499-574 | where no escaped backslash ends a line, that first fault is the one found by reading the text just as it stands |
| TomlMultiline.MultilineExactly | encoding/toml/parse.go:499-574 | for a text the lexer accepts, with no escaped backslash at the end of a line, the parser reaches a BUG branch if and only if the first fault of the text, as it stands, is an escape begun before a carriage return |
| TomlMultiline.TornApart | encoding/toml/parse.go:506-574 | an escaped backslash at the end of a line, behind any text: its second half is taken for the escape of the line feed, so what is left is well escaped if and only if the text in front has no escape before a carriage return and the next line can be read as the rest of an escape |
| TomlMultiline.TornExamples | encoding/toml/parse.go:506-574 | two texts of that kind: a BUG, and a newline in place of a backslash |
| TomlMultiline.EscapedReturnIsABug | encoding/toml/parse.go:533-535 | the shortest text that the lexer accepts and the parser panics on |
| TomlMultiline.ParseMultiline | encoding/toml/parse.go:499-574 | the loops compute that value; a BUG, a refusal and a value each exactly when the first fault of the text says so |
| TomlReading.StripReads | encoding/toml/parse.go:499-574 | removing line ends and then undoing escapes gives the meaning of a text as TOML v0.4.0 has it, read from left to right, and then the value of whatever follows |
| TomlReading.MeaningExactly | encoding/toml/parse.go:499-574 | a UTF-8 text the lexer accepts, with no escaped backslash at the end of a line: if it has a meaning, the parser gives it that value if and only if no line end is escaped as a carriage return and line feed and the text does not start with them |
| TomlReading.TornValue | encoding/toml/parse.go:506-574 | an escaped backslash at the end of a line, behind any such text: it means a backslash and a line feed, but the value goes on with the escape made of a backslash and what the next line starts with |
| TomlReading.TornExactly | encoding/toml/parse.go:506-574 | so the value is the meaning if and only if that escape and all behind it come out as the backslash, the line feed and what follows do |
| TomlReading.TornDiffers | encoding/toml/parse.go:506-574 | which never happens unless the next line, without its whitespace, starts with a backslash, u or U |
| TomlReading.ReturnExamples | encoding/toml/parse.go:499-514 | a carriage return and line feed at the start that the parser keeps, and one behind a backslash that it panics on |
| TomlReading.TornRune | encoding/toml/parse.go:506-529 | outside UTF-8 the value may differ, too: an escaped line end between the bytes of a rune |
| Utf8.EncodeDecode | encoding/toml/parse.go:519-528 | writing a decoded rune gives back its bytes, or three bytes for an ill-formed one |
| Utf8.DecodeLocal | encoding/toml/lex.go:156-159 | decoding a rune depends on at most four bytes |
| TomlTokens.RuleKeeps | encoding/toml/parse.go:98-143 | one step of any lexer state within its rule, in any situation: the parser's pending calls have a case for the item sent, and again want just what the lexer will send next; at the end the parser has ended or was given the lexer's error |
| TomlTokens.ConsumeAccounts | encoding/toml/parse.go:98-311 | the pending calls of the parser can be told from the items alone: which arrays and inline tables are open, and whether a key, a value or a comment's text is due |
| TomlTokens.StuckIsInlineComment | encoding/toml/parse.go:272-311 | the one BUG of the token loops that the lexer's items can reach is entered exactly when a comment start comes while the innermost open bracket is that of an inline table and neither a key nor a value is due |
| TomlTokens.StuckStays | encoding/toml/parse.go:82-96 | what holds of the whole run holds of every part of it that the parser has seen |
| TomlMachine.StepKept | encoding/toml/lex.go:89-885 | every step of a running machine, in any state and on any input: either it stops with one last item, an error or the end, never a BUG; or it stays sound, with less input left or less to do before reading; item, next state and stack are those that the token protocol allows; strings on a line end where `Scan` says, strings over several lines have only complete escapes |
| TomlMachine.RunEnds | encoding/toml/lex.go:89-98 | every run stops, with an error or with the end of the document as its only last item |
| TomlMachine.RunInProtocol | encoding/toml/lex.go:89-98 | at every point of every run the parser has a case for what has been sent, but for the inline comment |
| TomlMachine.RunAgrees | encoding/toml/lex.go:89-109 | every input: the parser's token loops end with the document, or are given the one error, or meet an item they have no case for, and that exactly when the items hold a comment directly in an inline table |
| TomlMachine.EofAtEnd | encoding/toml/lex.go:256-274 | the last step ends the document if and only if the machine stands behind a top-level item with the end of the input or a NUL byte next, or between items at the end of the input |
| TomlMachine.RunEndsAt | encoding/toml/lex.go:227-274 | every input: no NUL byte is read before the last step; a document that ends stops before the end of the input if and only if the input holds a NUL byte, and then at the first one, behind a top-level item |
| TomlMachine.NulEndsDocument | encoding/toml/lex.go:256-274 | a document `a=1`, a NUL byte and anything: it ends at the NUL byte with no error |
| TomlMachine.InlineCommentIsABug | encoding/toml/lex.go:525-543 | a document that starts with `a={#` takes the parser to its BUG branch |
| TomlMachine.StrKept | encoding/toml/lex.go:578-596 | in a string on a line: it goes on, ends where `Scan` says with just that text, or has no end |
| TomlMachine.MultilineStrKept | encoding/toml/lex.go:600-623 | in a string over several lines: its text has only complete escapes, and ends exactly at three quotes in a row |
| TomlLexer.Lexer.Next | encoding/toml/lex.go:138-159 | reads one rune; line stays one more than the newlines before pos; the latch is set exactly at the end of the input; a second call behind the end is excluded by its precondition |
| TomlLexer.Lexer.Backup | encoding/toml/lex.go:167-183 | restores position, line and window of the last read, or the latch |
| TomlLexer.Lexer.NextThenBackup | encoding/toml/lex.go:167-200 | reading and backing up changes neither position nor line nor latch |
| TomlLexer.Lexer.Accept | encoding/toml/lex.go:186-192 | consumes the next rune exactly when it is the given one |
| TomlLexer.Lexer.Peek | encoding/toml/lex.go:195-199 | the next rune, with nothing else changed |
| TomlLexer.Lexer.SkipWhitespace | encoding/toml/lex.go:202-212 | drops everything up to the first rune that is no whitespace, and nothing more |
| TomlLexer.Lexer.Push | encoding/toml/lex.go:111-113 | the state to return to is on top |
| TomlLexer.Lexer.Pop | encoding/toml/lex.go:115-122 | the state on top is next; with an empty stack a BUG item is sent, which no run does |
| TomlLexer.Lexer.Emit | encoding/toml/lex.go:128-131 | exactly one item, with the text read since the last one and its line |
| TomlLexer.Lexer.ReadLetters | encoding/toml/lex.go:840-848 | reads all letters up to the first rune that is none, in order |
| TomlLexer.Lexer.HexDigits | encoding/toml/lex.go:709-731 | whether count hexadecimal digits follow, and where reading them stops |
| TomlLexer.Lexer.OpenString | encoding/toml/lex.go:436-458 | three quotes open a string over several lines, and start behind them; otherwise one opens a string on a line |
| TomlLexer.Lexer.CloseMultiline | encoding/toml/lex.go:607-618 | three backups and three reads: the item holds just the text in front of the closing quotes |
| TomlLexer.Lexer.CloseLine | encoding/toml/lex.go:587-593 | the item holds just the text in front of the closing quote |
| TomlLexer.Lexer.OtherValue | encoding/toml/lex.go:426-467 | a value that is no string and starts with no digit: by its first rune an array, an inline table, a signed number, a word or an error |
| TomlLexer.Lexer.Errorf | encoding/toml/lex.go:217-224 | one error item on the present line and no further state |
| TomlLexer.Lexer.LexTop | encoding/toml/lex.go:227-251 | with its window of three backups and its end-of-input latch, and never reading behind the end, it takes the machine's step, so from a sound state it stops with one last item, or leaves less input or less to do, within the token protocol; in this state blanks are skipped, a comment, table header, key or the end begins; the end with something unsent is an error |
| TomlLexer.Lexer.LexTopEnd | encoding/toml/lex.go:256-274 | behind an item only whitespace, a comment, a line end or the end may come; the end sends EOF (the machine's step, sound and within the protocol) |
| TomlLexer.Lexer.LexTableStart | encoding/toml/lex.go:281-291 | one bracket or two choose the kind of header, and the item sent (the machine's step, sound and within the protocol) |
| TomlLexer.Lexer.LexTableEnd | encoding/toml/lex.go:293-296 | sends the end of the header and goes to the end of the line (the machine's step, sound and within the protocol) |
| TomlLexer.Lexer.LexArrayTableEnd | encoding/toml/lex.go:298-305 | the same if a second bracket closes, else an error (the machine's step, sound and within the protocol) |
| TomlLexer.Lexer.LexTableNameStart | encoding/toml/lex.go:307-323 | a part of the name begins: an empty one is an error, a quoted one is a value, else it is bare (the machine's step, sound and within the protocol) |
| TomlLexer.Lexer.LexBareTableName | encoding/toml/lex.go:327-335 | reads the runes of a bare name and sends them (the machine's step, sound and within the protocol) |
| TomlLexer.Lexer.LexTableNameEnd | encoding/toml/lex.go:339-353 | behind a part: a dot, the closing bracket or an error (the machine's step, sound and within the protocol) |
| TomlLexer.Lexer.LexKeyStart | encoding/toml/lex.go:357-375 | announces a key, quoted or bare; an empty one is an error (the machine's step, sound and within the protocol) |
| TomlLexer.Lexer.LexBareKey | encoding/toml/lex.go:379-394 | reads the runes of a bare key and sends them when whitespace or an equals sign follows, else fails (the machine's step, sound and within the protocol) |
| TomlLexer.Lexer.LexKeyEnd | encoding/toml/lex.go:398-408 | skips whitespace up to the equals sign, and goes to the value (the machine's step, sound and within the protocol) |
| TomlLexer.Lexer.LexValue | encoding/toml/lex.go:413-467 | the first rune of a value chooses what it is; what none starts with is an error (the machine's step, sound and within the protocol) |
| TomlLexer.Lexer.LexArrayValue | encoding/toml/lex.go:471-490 | in front of an item of an array: blanks, comments, the end, or a value; a comma is an error (the machine's step, sound and within the protocol) |
| TomlLexer.Lexer.LexArrayValueEnd | encoding/toml/lex.go:495-513 | behind an item: blanks, comments, a comma, the end, or an error (the machine's step, sound and within the protocol) |
| TomlLexer.Lexer.LexArrayEnd | encoding/toml/lex.go:517-521 | sends the end of the array and returns (the machine's step, sound and within the protocol) |
| TomlLexer.Lexer.LexInlineTableValue | encoding/toml/lex.go:525-543 | in front of a pair of an inline table; a line end or a comma is an error (the machine's step, sound and within the protocol) |
| TomlLexer.Lexer.LexInlineTableValueEnd | encoding/toml/lex.go:548-566 | behind a pair: whitespace, a comment, a comma, the end, or an error (the machine's step, sound and within the protocol) |
| TomlLexer.Lexer.LexInlineTableEnd | encoding/toml/lex.go:570-574 | sends the end of the inline table and returns (the machine's step, sound and within the protocol) |
| TomlLexer.Lexer.LexStr | encoding/toml/lex.go:578-596 | one rune of a string, an escape, its end, which sends the text in front of it, or an error for a line end or the end of input (the machine's step, sound and within the protocol) |
| TomlLexer.Lexer.LexMultilineStr | encoding/toml/lex.go:600-623 | the same over several lines, where three quotes end it (the machine's step, sound and within the protocol) |
| TomlLexer.Lexer.LexRawStr | encoding/toml/lex.go:627-642 | the same without escapes (the machine's step, sound and within the protocol) |
| TomlLexer.Lexer.LexMultilineRawStr | encoding/toml/lex.go:647-668 | the same without escapes over several lines (the machine's step, sound and within the protocol) |
| TomlLexer.Lexer.LexMultilineStrEscape | encoding/toml/lex.go:672-680 | a line end may be escaped; else it is an escape of any string (the machine's step, sound and within the protocol) |
| TomlLexer.Lexer.LexStrEscape | encoding/toml/lex.go:682-707 | a known letter returns to the string, u and U go on to digits, anything else is an error (the machine's step, sound and within the protocol) |
| TomlLexer.Lexer.LexShortUnicodeEscape | encoding/toml/lex.go:709-719 | four hexadecimal digits, or an error at the first rune that is none (the machine's step, sound and within the protocol) |
| TomlLexer.Lexer.LexLongUnicodeEscape | encoding/toml/lex.go:721-731 | the same for eight (the machine's step, sound and within the protocol) |
| TomlLexer.Lexer.LexNumberOrDateStart | encoding/toml/lex.go:734-748 | the first digit of a number or a date (the machine's step, sound and within the protocol) |
| TomlLexer.Lexer.LexNumberOrDate | encoding/toml/lex.go:751-768 | more digits; a minus makes it a date, a point or exponent a float, an underscore a number; else an integer is sent (the machine's step, sound and within the protocol) |
| TomlLexer.Lexer.LexDatetime | encoding/toml/lex.go:772-785 | reads the runes of a date and sends it (the machine's step, sound and within the protocol) |
| TomlLexer.Lexer.LexNumberStart | encoding/toml/lex.go:790-800 | behind a sign a digit must come (the machine's step, sound and within the protocol) |
| TomlLexer.Lexer.LexNumber | encoding/toml/lex.go:803-818 | more digits and underscores; a point or exponent makes it a float; else an integer is sent (the machine's step, sound and within the protocol) |
| TomlLexer.Lexer.LexFloat | encoding/toml/lex.go:823-836 | reads the runes of a float and sends it (the machine's step, sound and within the protocol) |
| TomlLexer.Lexer.LexBool | encoding/toml/lex.go:839-856 | reads all letters; true and false are sent, any other word is an error (the machine's step, sound and within the protocol) |
| TomlLexer.Lexer.LexCommentStart | encoding/toml/lex.go:860-864 | announces a comment (the machine's step, sound and within the protocol) |
| TomlLexer.Lexer.LexComment | encoding/toml/lex.go:869-877 | reads up to the end of the line and sends the text (the machine's step, sound and within the protocol) |
| TomlLexer.Lexer.LexSkip | encoding/toml/lex.go:880-885 | drops what was read and goes to the state given (the machine's step, sound and within the protocol) |
| TomlLexer.Lexer.Run | encoding/toml/lex.go:89-98 | dispatching takes the step of the machine for every state |
| TomlLexer.Lexer.Step | encoding/toml/lex.go:89-98 | one step of the machine, which keeps it sound and in the protocol |
| TomlLexer.Lexer.StepOn | encoding/toml/lex.go:89-98 | a step changes nothing about how the run ends, comes nearer to that, and keeps the parser able to go on |
| TomlLexer.Lexer.FinishString | encoding/toml/lex.go:578-596 | from an opening quote the machine runs to the closing one and sends just the text between, or to an error if there is none |
| TomlLexer.Lexer.NextItem | encoding/toml/lex.go:89-98 | the k-th call returns the k-th item of the run, never a BUG item; the last one comes exactly when the machine has stopped; strings are well escaped; and the parser's token loops, given the items so far, are in no BUG branch but that of an inline comment |
| TomlNumbers.StepTold | encoding/toml/lex.go:734-856 | every step of every state sends only booleans that say true or false and only integers of digits and underscores with an optional sign |
| TomlNumbers.TextsAreFine | encoding/toml/lex.go:89-109 | so does the run over any input |
| TomlNumbers.NoDoubts | encoding/toml/parse.go:172-200 | the parser takes every boolean item of a run for one, and every integer item, once its underscores are removed, for a decimal number: the BUG branches for other texts are not reached |
| TomlNumbers.NumUnderscoresOK | encoding/toml/parse.go:314-327 | the loop accepts exactly the texts whose underscores stand between other characters |
| TomlNumbers.IntegerValue | encoding/toml/parse.go:181-200 | the value of an integer item: its decimal value, or an error exactly when an underscore is misplaced or the value needs more than 64 bits; never a BUG |
| TomlLexer.LexQuoted | encoding/toml/lex.go:413-596 | an encoded string, anywhere in a document, lexes to an item with just the quoted text, unless it holds a NUL byte |
| TomlLexer.EncodeThenParse | encoding/toml/encode.go:207-209 | encoding, lexing inside any document and undoing the escapes gives the string back if and only if it is UTF-8 without NUL bytes |
| TomlLexer.LexAll | encoding/toml/lex.go:89-109 | every input is lexed to the items of the machine's run, ending with EOF or one error; booleans and integers among them are such; the parser's token loops that consume them end, or are given the error, or are in the BUG of an inline comment exactly when there is such a comment; a document that ends before its input does ends at a NUL byte behind a top-level item |
| TomlTables.DottedInjective | encoding/toml/parse.go:472-486 | keys without dots in their parts have different joined names, the keys of the implicits map |
| TomlTables.PutAt | encoding/toml/parse.go:406-453 | binding a new name changes what its path leads to and leaves every bound path bound to the same value, or to a table as before |
| TomlTables.PutEmpty | encoding/toml/parse.go:359-363 | an empty table on a new name adds just that path |
| TomlTables.MarkedIsTable | encoding/toml/parse.go:472-486 | a marked path leads to a table |
| TomlTables.Parser.SetValue | encoding/toml/parse.go:406-453 | exactly three outcomes: bound, mark taken away and value dropped, refused; the BUG branches are not reached |
| TomlTables.Parser.OpenParents | encoding/toml/parse.go:355-378 | missing tables above a key, and only those, are created and marked; fails exactly when something above is no table |
| TomlTables.Parser.EstablishContext | encoding/toml/parse.go:347-401 | accepted exactly when all above are tables and the path is free or implicit; nothing bound is lost or rebound; the context is a table; a header seen before is refused |
| TomlTables.Parser.KeyValueLine | encoding/toml/parse.go:127-138 | accepted exactly when the path is free or implicit; in the second case the table stays and the value is forgotten |
| TomlTables.ParseDocument | encoding/toml/parse.go:98-143 | a whole document is accepted if and only if no line defines what an earlier line defined, and no header leads through a plain value of an earlier line (said of the lines alone, without the parser's tables); no BUG branch is reached; and when it is accepted, tables and marks are what the lines say, and a plain value is there at the end if and only if no earlier header leads to its path or through it |
| TomlTables.ValueIsForgotten | encoding/toml/parse.go:431-446 | a document that is accepted although one of its values is dropped |
| YamlDecode.AddNodeValid | encoding/yaml/decode.go:135-199 | a new node keeps the graph well formed: aliases point at earlier nodes that are no aliases |
| YamlDecode.GrowValid | encoding/yaml/decode.go:201-224 | so does a child appended to an open collection |
| YamlDecode.WrittenIsParsed | encoding/yaml/decode.go:141-224 | the events of any tree, followed by anything, are parsed to the graph laid out from the tree, and what follows is left; they are refused exactly when an alias names nothing that begins before it |
| YamlDecode.ParsedIsWritten | encoding/yaml/decode.go:141-224 | whatever is parsed is the layout of a tree whose events were consumed |
| YamlDecode.ParsedIsValid | encoding/yaml/decode.go:135-224 | every graph the parser builds is well formed: an alias means the node that last took its name before it |
| YamlDecode.ParsedInOrder | encoding/yaml/decode.go:135-224 | nodes are numbered in the order in which their events begin, and each is made from its event |
| YamlDecode.Parser.Parse | encoding/yaml/decode.go:141-224 | graph, position and error are those of the parsing function, for any events |
| YamlDecode.Parser.ParseSequence | encoding/yaml/decode.go:201-210 | the same for the items of a sequence |
| YamlDecode.Parser.ParseMapping | encoding/yaml/decode.go:212-224 | the same for the keys and values of a mapping |
| YamlDecode.ParsedIsDecodable | encoding/yaml/decode.go:141-361 | every graph the parser can build, cycles included, is one the decoder can take |
| YamlDecode.EvalFollows | encoding/yaml/decode.go:317-361 | for every set of aliases under expansion and every depth: where unrolling and decoding both finish they agree, and enough depth makes unrolling finish |
| YamlDecode.EvalStuck | encoding/yaml/decode.go:350-361 | a refused part is cut short at every depth of unrolling, provided no merge takes an alias for a mapping that is none |
| YamlDecode.DecodesTheUnrolling | encoding/yaml/decode.go:317-361 | what is not refused decodes to its finite unrolling, reached at a depth of at most the number of alias nodes |
| YamlDecode.RefusesExactlyTheInfinite | encoding/yaml/decode.go:350-361 | a graph is refused as containing itself if and only if its unrolling is infinite, provided no merge sees an anchor that was redefined from something else to a mapping; aliases that are not merged may have any history |
| YamlDecode.CarefulIsExact | encoding/yaml/decode.go:350-361 | any graph: a decoder that looks for a self reference only where it goes on to expand the alias would refuse exactly the graphs whose unrolling is infinite, and else give the unrolling |
| YamlDecode.RefusedThoughFinite | encoding/yaml/decode.go:350-361 | any graph: the decoder refuses all that is infinite; a graph that it refuses is finite if and only if that careful decoder does not refuse it, so the failing graphs are those where the look at a merged alias of something else than a mapping decides; what it does not refuse both decode to the same |
| YamlDecode.RedefinedAnchorIsRefused | encoding/yaml/decode.go:744-771 | without that proviso it fails: a graph with a finite unrolling that is refused |
| YamlDecode.RedefinedIsParsed | encoding/yaml/decode.go:141-224 | that graph is what the events of `[&p [{<<: &s [*p]}], *s, &p {}]` are parsed to |
| YamlDecode.Decoder.Unmarshal | encoding/yaml/decode.go:317-361 | the recursive decoder with its mutable set of aliases computes `Eval` and leaves the set as it was; it terminates by (alias nodes not being expanded, subtree) |
| YamlDecode.Decoder.UnmarshalItems | encoding/yaml/decode.go:543-579 | the same for the items of a sequence |
| YamlDecode.Decoder.UnmarshalPairs | encoding/yaml/decode.go:581-641 | the same for the entries of a mapping, in order |
| YamlDecode.Decoder.UnmarshalPair | encoding/yaml/decode.go:613-640 | the same for one entry, merges included |
| YamlDecode.Decoder.UnmarshalInto | encoding/yaml/decode.go:581-641 | the same for decoding into a map that is there |
| YamlDecode.Decoder.MergeNode | encoding/yaml/decode.go:744-771 | the same for a merge of a mapping, an alias or a sequence |
| YamlDecode.Decoder.MergeSequence | encoding/yaml/decode.go:757-768 | merged maps are taken from last to first |
| YamlDecode.Load | encoding/yaml/decode.go:141-361 | parse and decode: always ends; parsing succeeds if and only if the events begin with those of a tree whose aliases all have a meaning; the result is the finite unrolling of the graph laid out from that tree; the unrolling is infinite exactly when the decoder and the careful one both refuse it, and under the same proviso the decoder's refusal is enough |
| RecWriter.FrameRoundTrip | encoding/rec/frame.go:32-41 | a frame is read back, and what follows it is left, if and only if its payload is shorter than 2^32 bytes |
| RecWriter.Encode | encoding/rec/frame.go:32-41 | filling the array by offset gives the encoded frame |
| RecWriter.Reader.ReadFrame | encoding/rec/reader.go:29-46 | one frame is taken off the stream; an error is reported exactly when nothing is left, or nothing behind a head that announces a payload |
| RecWriter.ReadAll | encoding/rec/reader.go:29-46 | every sequence of frames is read back |
| RecWriter.GroupsPartition | encoding/rec/writer.go:145-186 | for every history: the groups are a partition of it in order, members of a group have one kind and lie within sq of the first, and neighbouring groups could not be joined |
| RecWriter.RecordingKeepsOutput | encoding/rec/writer.go:145-186 | for every history, what is recorded has the same ordered stream of (stdout or stderr, byte) pairs |
| RecWriter.RecordedFrame | encoding/rec/writer.go:145-186 | each recorded frame has its first member's time and kind, all members lie within sq of it, and a run of window sizes keeps the last one |
| RecWriter.Writer.WriteFrame | encoding/rec/writer.go:145-186 | the one-frame cache and the bytes written so far always stand for the groups of everything written so far |
| RecWriter.Writer.Write | encoding/rec/writer.go:217-248 | each kind of write adds its frame to the history, without an error, whether or not the writer is activated |
| RecWriter.Writer.Flush | encoding/rec/writer.go:188-202 | after a flush the bytes are the encoded groups |
| RecWriter.Writer.Close | encoding/rec/writer.go:258-266 | so they are after Close |
| RecWriter.RecordAndPlay | encoding/rec/writer.go:145-266 | any run of writes ended by Close, on a writer activated or not, read back: the recorded groups, with the output of the run in its order |
| RecWriter.WindowSizeRoundTrip | encoding/rec/frame.go:44-51 | a window size is read from the payload it was written to |
| OrmCallbacks.PlaceOrdered | database/orm/callback.go:167-200 | placing one more processor, when earlier wishes are granted, grants its own and keeps theirs |
| OrmCallbacks.AllPlaced | database/orm/callback.go:202-204 | so the loop over all processors grants all wishes, without running out of nested calls |
| OrmCallbacks.OrderlyIsSorted | database/orm/callback.go:153-214 | if every first registration asks for one place, next to an earlier or to an unregistered callback: each name occurs once, every wish is granted, processors without wishes keep their order, and the handlers are those last registered and not removed |
| OrmCallbacks.Sorter.SortCallbackProcessor | database/orm/callback.go:167-200 | the recursion that splices the list and assigns wishes in place computes `Place` |
| OrmCallbacks.Sorter.SortBefore | database/orm/callback.go:169-178 | its "before" branch |
| OrmCallbacks.Sorter.SortAfter | database/orm/callback.go:180-193 | its "after" branch |
| OrmCallbacks.Sorter.SortProcessors | database/orm/callback.go:153-214 | the whole sort computes `Sort` |
| OrmCallbacks.SortEnds | database/orm/callback.go:153-214 | sorting ends for every list of callbacks in which following wishes never comes round in a circle of callbacks that are passed over (those that want to precede something nobody registers) |
| OrmCallbacks.OneWishEnds | database/orm/callback.go:153-214 | so it ends whenever each callback has at most one wish |
| OrmCallbacks.DivergesExactly | database/orm/callback.go:167-200 | for callbacks with distinct names: no number of nested calls is enough if and only if there is such a circle |
| OrmCallbacks.MutualWishesDiverge | database/orm/callback.go:180-193 | two processors for which no number of nested calls is enough |
| OrmWishes.PlaceWalks | database/orm/callback.go:167-200 | distinct names, at most one wish each, no cycle of wishes: placing a callback, with all its nested calls and the wishes they assign, is a walk along the chain of wishes that starts with it |
| OrmWishes.WalkSettles | database/orm/callback.go:167-200 | every wish of a chain is granted or refused, and every member placed once or twice, as its place in the chain says |
| OrmWishes.GrantedExactly | database/orm/callback.go:153-214 | for all such lists, every callback and the whole run: its wish is granted if and only if its chain does not refuse it (a wish to precede is refused when the callback wished for goes beside one placed before; a wish to follow, when its owner had to be placed already and what it wants to follow asks to precede something unplaced), and it is run twice if and only if its chain places it twice |
| OrmWishes.RunTwice | database/orm/callback.go:180-193 | three processors of which one is run twice |
| OrmWishes.FollowMayFail | database/orm/callback.go:180-193 | three processors whose wishes can all be met, of which a wish to follow is refused |
| OrmCallbacks.LaterTargetMayFail | database/orm/callback.go:153-214 | three processors whose wishes can all be met, of which a wish to precede is refused |
| RedisCluster.StepKeeps | database/redis/cluster.go:196-203 | every load or swap of any caller keeps the invariant of the compare-and-swap loop, and the generation never falls |
| RedisCluster.RunKeeps | database/redis/cluster.go:196-203 | so does every interleaving |
| RedisCluster.HighestStands | database/redis/cluster.go:196-203 | under every interleaving of any number of callers, when all have returned the generation is the highest of all values set and of the first |
| RedisCluster.RetryMeansProgress | database/redis/cluster.go:196-203 | a swap is tried again exactly when the generation has risen since the load |
| RedisCluster.Nodes.GetOrCreate | database/redis/cluster.go:299-343 | a node per address, made once; one that does not answer is kept all the same |
| RedisCluster.Nodes.NewState | database/redis/cluster.go:382-424 | a build succeeds if and only if each address is known already or its new node answers; the state has just those addresses, all nodes of it are in the map and open, and the stamps of all nodes are those that the reference book gives |
| RedisCluster.TouchAllFinds | database/redis/cluster.go:299-424 | what a build does to the stamps: all found or made, up to the first address that is new and does not answer |
| RedisCluster.Nodes.TakeOut | database/redis/cluster.go:280-297 | taken out are exactly the nodes stamped before the generation |
| RedisCluster.Nodes.GC | database/redis/cluster.go:280-297 | a collection drops and closes exactly those, and no node of a state of at least that generation |
| RedisCluster.Nodes.Close | database/redis/cluster.go:230-250 | every node is closed and the map is empty; a second close changes nothing |
| RedisCluster.CloseAll | database/redis/cluster.go:290-296 | all of them are closed |
| RedisCluster.BuildAndCollect | database/redis/cluster.go:274-424 | after any sequence of state builds and collections: there is one state for each build that the reference book says succeeds, in order, with just its addresses; and the nodes of every state of at least the highest generation collected are in the map and open |
| RedisCluster.CollectedInsideBuild | database/redis/cluster.go:382-424 | a collection between finding a node and stamping it closes that node if and only if its stamp before the build is below the generation collected |
| RedisRing.ThreeInARow | database/redis/ring.go:108-131 | the counter has reached three exactly when the last three votes failed |
| RedisRing.Shard.Vote | database/redis/ring.go:118-131 | for every history of votes: down exactly when the last three failed; a change is reported exactly when there is one |
| RedisRing.Shards.Add | database/redis/ring.go:150-155 | an added shard is up and on the hash ring |
| RedisRing.Shards.Rebalance | database/redis/ring.go:240-251 | the hash ring holds the names of the shards that are up, and no other name |
| RedisRing.Shards.VoteAt | database/redis/ring.go:118-131 | one shard votes, the others are untouched |
| RedisRing.Shards.Close | database/redis/ring.go:252-272 | every shard's client is closed once, an error is reported exactly when one of them fails, and the ring lets go of its shards; a second close changes nothing |
| RedisRing.Shards.CloseClients | database/redis/ring.go:262-267 | the clients are closed in any order, each once; the error is that of one that failed |
| RedisRing.Shards.PingAll | database/redis/ring.go:225-231 | if no vote reports a change, the hash ring still is that set |
| RedisRing.Shards.Sweep | database/redis/ring.go:209-238 | after every sweep it is, although it is rebuilt only when a vote reports a change |
| RedisRing.Heartbeats | database/redis/ring.go:209-251 | after any sequence of sweeps with any outcome of every ping, the hash ring holds exactly the shards whose last three pings did not all fail |
| Bytes.LittleEndianRoundTrip | database/mysql/utils.go:564-609 | little-endian numbers of any width are read back |
| Bytes.BigEndian32RoundTrip | encoding/rec/frame.go:32-41 | 32-bit big-endian numbers are read back |

## Left out

MySQL driver:

- Sockets, TLS, deadlines, logging, authentication and the handshake.
- MySqlBuffer.Buffer.ReadNext: that the slice handed out stays valid only until the next read, and the room behind a slice's end (its capacity) at the edge of the buffer, are not modelled; the data is a value.
- MySqlPackets.Conn.ReadPacket: the cancellation flag is constant during one packet; that it may be set while the call waits is left to the watcher's model.
- MySqlPackets.Conn.WritePacket: likewise constant; setting a write deadline is left out.
- MySqlWatcher.SafeUnderEverySchedule: channels and atomic fields are a state machine on values, not a class, because its subject is interleaving; the quit packet that closing sends is in `MySqlPackets` only.
- MySqlStream.SessionOverBytes: the packets of the response are read before the session begins, not one by one as it needs them; how many there are is a parameter.
- MySqlResults.Session: works on whole packets (`MySqlStream` adds framing) and on responses without errors on the text path; binary rows, the contents of error packets, rejecting read-only servers, LOCAL INFILE and time parsing are not modelled. Its precondition excludes rows that start with a value of 2^24 bytes or more, as `SkipRowsExactly` says it must.
- MySqlExecute.ServerGetsArguments: floats and times are given by their bits and their text; maxAllowedPacket is at least 9, because below that nothing is sent, as `LongDataEndsExactly` and the size of the execute packet say.
- MySqlExecute.Stmt.WriteCommandLongData: maxAllowedPacket is at least 9, because with 8 it does not return and below that it panics; `LongDataLoop` is the same loop for every limit, cut off after a number of rounds.
- MySqlExecute.Stmt.WriteExecutePacket: for maxAllowedPacket below 9, arguments long enough to be sent ahead are excluded, for the same reason.
- MySqlInterpolate.InterpolateParams: the texts of floats and times are given.
- MySqlDsn.DsnRoundTrip: durations, locations, ports, lower-casing and registered TLS names are abstract functions with the inverses it needs; the configuration is a value that is assigned anew, so sharing of one configuration is not modelled; TLS objects are names.
- MySqlLenEnc.StringRoundTrip: lengths stay below 2^63-9, where the source's 64-bit arithmetic is exact.

TOML:

- TomlLexer.Lexer.Errorf: the text of the error is left out; its item is empty.
- TomlLexer.LexAll: the texts of error items are empty; which runes are letters is a parameter; the channel of ten items is a sequence. What the parser does with the text of an item is another matter: single-line strings are in `TomlStrings`, others in `TomlMultiline` and `TomlReading`, booleans and integers in `TomlNumbers`.
- TomlMultiline.MultilineExactly: excludes an escaped backslash at the end of a line, which `PanicsExactly` and `TornApart` cover.
- TomlReading.MeaningExactly: which runes are spaces is a parameter, the same for meaning and parser (Go counts more of them than TOML does); a text with an escaped backslash at the end of a line is in `TornExactly`; one that is not UTF-8 has no meaning.
- TomlTokens.RuleKeeps: the parser stops early on errors of its own (duplicate keys, bad numbers), which only shortens what it consumes.
- TomlTables.ParseDocument: `[[...]]` headers, keys whose parts hold a dot, types and the ordered list of keys; inline tables and arrays are opaque values.
- Floats and dates as values, encoding of keys and tables.

YAML:

- YamlDecode.Load: the destination is an empty interface; structs, slices, typed maps, Unmarshaler, strict mode, document events inside content, and how a scalar's tag resolves (a parameter) are not modelled. A map is the log of its assignments.

Recorder:

- RecWriter.RecordAndPlay: the underlying writer never fails and the reader's buffer is read in full; the mutex and failing writes are left out. Payloads are shorter than 2^32 bytes, as `FrameRoundTrip` says they must be.

ORM:

- OrmCallbacks.DivergesExactly: for distinct names; where a name is registered more than once an earlier registration may be placed and so break the circle, and only `SortEnds` is stated.
- OrmWishes.GrantedExactly: for distinct names, at most one wish each and no cycle of wishes; with two wishes or a cycle, `OrderlyIsSorted` and the theorems about ending are what is stated.
- OrmCallbacks.Sorter.SortProcessors: nested calls are bounded by a parameter; None at every bound means endless recursion. `reorder`'s five kinds and the logging are left out.

Redis:

- RedisCluster.BuildAndCollect: a build is one step here, with `CollectedInsideBuild` showing why; generations stay below 2^32-1; slots, masters, slaves and loopback addresses and timers are left out.
- RedisRing.Heartbeats: the hash ring is a set of names; timers and the choice of a shard for a key are left out.
- Commands, pipelines, connection pools, sqlite3, dialects, SQL building and reflection: thin or foreign to the models above.
