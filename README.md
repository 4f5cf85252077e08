# workgen: command parsing, request encoding and per-user replay

This project models the core of `workgen.go`, a workload generator for a
stock-trading service. The generator reads a script of lines shaped like
`[<transaction>] CMD, f1, f2, ...`. It turns each line into a `command`
record and sends it to the service, either as an HTTP form or as one raw TCP
line. In parallel mode it first buffers each user's commands and then
replays every buffer on a start signal.

The model is split into the following modules:

- `Registry` (registry.dfy): the `command` record and `checkForValidCommand`.
  This is the fixed, case-insensitive table from sixteen command names to
  three flags (username, stock and amount required). The accepted token
  keeps its original spelling.
- `Parser` (parser.dfy): `getTransactionNumber`, `removeBrackets` and
  `parseLine`.
  - The greedy, dot-all match of `\[(.*)\]` is written as an explicit scan
    from the first `[` to the last `]`.
  - A line without such a pair makes the source panic. The model returns
    `Panicked` for it.
- `Encoder` (encoder.dfy): `pop`, `generateMapFromCommand` and the TCP
  payload of `generateTCPRequest`.
  - `generateMapFromCommand` changes the record through a pointer. It is
    modelled as a method on a `CommandRef` cell, and its result is tied to
    a positional specification `ExpectedForm`.
  - What is left of `values` afterwards is given by `Remaining`.
- `Worker` (worker.dfy): `parallelUserExecution`. It is a `UserWorker`
  class that goes Buffering → Releasing → Done. The two channels become the
  methods `Receive` and `Start`.
- `Routing` (routing.dfy): the parallel branch of `main`. It is a `Router`
  class holding the map from user to worker and the stashed `DUMPLOG`
  record, with a ghost copy of every worker's buffer. The class is tied to
  the value-level specification `Route` / `RouteAll`. A `wire` field
  records the requests in the order they go out, so that the deferred
  `DUMPLOG` is shown to follow every replay.
- `Dispatch` (dispatch.dfy): the non-parallel branch of `main`. Each line
  is sent as soon as it is read. The scanner loop is written once, over the
  per-line sender (TCP) or over the line parser (HTTP), and instantiated
  with `TcpLine` and `Parse`.
- `GoStrings` (gostrings.dfy): the parts of Go's `strings` package that the
  code uses (`TrimSpace`, `Index`, `Split`, `Join`, `ToUpper`), over code
  points.
- `Samples` (samples.dfy): the script lines `[1] ADD,u1,100`,
  `[7] QUOTE, u2, S1`, `[2] FROB,u1` and `ADD,u1,100` worked through the
  model.

In these points the code does something a reader might not expect; the
model follows the code:

- The TCP payload is the line after its first `]`, trimmed, plus a newline.
  The transaction is not appended to it.
- A line with no `[...]` panics in `getTransactionNumber`. It is not
  reported as an invalid command.
- The transaction runs to the last `]` of the line. The body starts after
  the first `]`.
- `parseLine` never checks the number of fields. With surplus fields the
  form's `transaction` is the first surplus field.
- The `"0"` placeholder is written by the encoder, when it overwrites the
  popped slot. The parser does not write it.
- The `DUMPLOG` test in `main` is case-sensitive. A `dumplog` line is routed
  to its user's buffer like any other command.

## Model

| member | source | states |
|---|---|---|
| Registry.CreateCommandStruct | workgen.go:164-166 | the record has the given name and flags, no raw text and no values |
| Registry.CheckForValidCommand | workgen.go:164-206 | accepted exactly when the upper-cased token is one of the sixteen names; the record keeps the token as written, carries that name's flags, no raw text and no values; any other token gives the error "Invalid Command" |
| Registry.UsernameAlwaysRequired | workgen.go:170-201 | every accepted command requires a username |
| Registry.CaseInsensitive | workgen.go:168-169 | tokens equal up to case are accepted or refused together, with the same flags |
| Registry.FlagTableByCase | workgen.go:168-181 | `add`, `Quote`, `commit_sell` give (true,false,true), (true,true,false), (true,false,false), spelling kept |
| Registry.FlagTableRows | workgen.go:190-199 | CANCEL_SET_BUY is (true,true,false); `DumpLog` is (true,false,false) |
| Registry.RejectedTokens | workgen.go:202-203 | `FROB`, and ` ADD` with a leading blank, are refused |
| GoStrings.TrimSpace | workgen.go:142-150 | `strings.TrimSpace` leaves no white space at either end of its result |
| GoStrings.Index | workgen.go:141 | `strings.Index` is -1 or a position holding the character |
| GoStrings.LastIndex | workgen.go:135-137 | the last-occurrence scan is -1 or a position holding the character |
| GoStrings.Split | workgen.go:148 | `strings.Split(s, ",")` gives at least one piece and no piece holds a comma |
| GoStrings.Join | workgen.go:158 | `strings.Join(args, ",")` starts with the first piece, followed by a comma when there are two or more |
| GoStrings.ToUpper | workgen.go:168 | `strings.ToUpper` keeps the length |
| GoStrings.ToUpperChanges | workgen.go:168 | the upper case holds no ASCII lower-case letter, and a rune changes exactly when it is a-z, U+0131 or U+017F |
| GoStrings.TrimSpaceCuts | workgen.go:142 | TrimSpace returns a contiguous slice of its input and only white space is cut on either side |
| GoStrings.TrimSpaceIdempotent | workgen.go:150 | trimming twice is trimming once |
| GoStrings.IndexSpec | workgen.go:141 | `strings.Index` is -1 exactly when the character is absent, and otherwise no earlier occurrence exists |
| GoStrings.LastIndexSpec | workgen.go:135-137 | the last-occurrence scan is -1 exactly when the character is absent, and otherwise no later occurrence exists |
| GoStrings.JoinSplit | workgen.go:148 | joining the pieces of `strings.Split(s, ",")` with "," gives `s` back |
| GoStrings.SplitJoin | workgen.go:158 | splitting comma-free pieces joined by "," gives the pieces back |
| Parser.TransactionNumberFound | workgen.go:134-138 | the pattern matches (no panic) exactly when some `[` precedes some `]` |
| Parser.TransactionNumberSpan | workgen.go:134-137 | the capture is the text strictly between the first `[` and the last `]`, whatever lies between |
| Parser.NoOpeningBracket | workgen.go:134-138 | a line without `[` panics in parseLine |
| Parser.TransactionNumber | workgen.go:134-138 | a transaction is found only in a line holding both a `[` and a `]`, and it is at least two characters shorter than the line (the exact span is TransactionNumberSpan) |
| Parser.RemoveBrackets | workgen.go:140-143 | the result has no leading or trailing white space |
| Parser.RemoveBracketsIsAfterFirst | workgen.go:140-143 | with a `]`: the trimmed text after the first `]`; without: the whole line trimmed |
| Parser.BracketedBody | workgen.go:134-143 | a line `[tx] body` with a trimmed body and no other `]` yields `tx` as transaction and `body` after the brackets |
| Parser.Tokens | workgen.go:148-151 | one field per comma-split piece, empty ones kept, each trimmed and comma-free |
| Parser.TrimFields | workgen.go:149-151 | the loop replaces every piece by its trimmed self, in place, keeping the count |
| Parser.TokensOfPadded | workgen.go:148-151 | fields written with or without a blank after each comma read back without it |
| Parser.Parse | workgen.go:145-162 | a parsed record carries at least one field and the transaction |
| Parser.Assemble | workgen.go:152-161 | a known first field gives a record with the table's flags, values = fields ++ [transaction] and raw string = fields joined by ","; an unknown one gives "Invalid Command" |
| Parser.ParseLine | workgen.go:145-162 | the method (transaction first, then body, split, trim loop, registry lookup) computes exactly Parse |
| Parser.ParseOutcomes | workgen.go:145-156 | a panic exactly when no `[`…`]` pair exists; a refusal with "Invalid Command" exactly when the upper-cased first field is unregistered |
| Parser.ParsedRawSplits | workgen.go:158-160 | values = Split(rawCommandString) ++ [transaction] |
| Parser.WrittenParts | workgen.go:134-151 | the line `[tx] f1,...,fn` (trimmed, bracket-free fields) gives back `tx` and exactly the fields |
| Parser.ReparseLineOf | workgen.go:145-161 | writing a parsed record back as `[tx] raw` and parsing again gives the same record when neither part holds a `]` |
| Encoder.Pop | workgen.go:208-210 | on a non-empty slice, drops exactly the first element |
| Encoder.CommandRef.constructor | workgen.go:212 | the cell holds the record that `*command` points to; GenerateMapFromCommand changes it in place |
| Encoder.GenerateMapFromCommand | workgen.go:212-239 | the form equals ExpectedForm, and the record keeps its fields with values = Remaining, i.e. the old values minus their first k+1 entries, the front one set to "0" when `useNum` is off |
| Encoder.Remaining | workgen.go:218-237 | k+1 values are consumed; the new front is the old entry k+1 or "0"; the rest is untouched |
| Encoder.FormShape | workgen.go:212-238 | keys are exactly {command, transaction} plus one per set flag; every value is a one-element list; command = values[0], the i-th optional key (username, stock, amount order) = values[i+1], transaction = values[k+1] or "0" |
| Encoder.OptionalKeyAt | workgen.go:216-231 | the i-th optional key present takes the value at position i+1 |
| Encoder.UseNumOnlyTouchesTransaction | workgen.go:233-237 | switching `useNum` off changes only the transaction entry, to "0" |
| Encoder.FormOfParsed | workgen.go:212-238 | for a line with exactly the fields its command names, the form carries the first field as command and the line's own transaction (or "0") |
| Encoder.SurplusFieldIsTransaction | workgen.go:233-237 | with surplus fields the form's transaction is the first surplus field, not the bracketed one |
| Encoder.AddForm | workgen.go:212-238 | ADD u1 100 tx 1 gives {command: ADD, username: u1, amount: 100, transaction: 1} and no stock key |
| Encoder.QuoteForm | workgen.go:212-238 | QUOTE u2 S1 with `useNum` off gives {command, username, stock, transaction: "0"} and no amount key |
| Encoder.TcpPayload | workgen.go:241-250 | the payload ends with a newline |
| Encoder.TcpDropsTransaction | workgen.go:241-250 | the line `[tx] f1,...,fn` is sent as `f1,...,fn` and a newline, without the transaction |
| Encoder.TcpOfBracketed | workgen.go:241-250 | a line `[tx] body` is sent as `body` and a newline |
| Encoder.TcpPayloadOfRaw | workgen.go:127 | a trimmed raw string without `]` is sent unchanged plus a newline |
| Worker.Send | workgen.go:282-289 | TCP exactly when `useTcp`; a TCP request carries the raw string's payload; an HTTP form has the record's form keys and its name under command |
| Worker.Replay | workgen.go:281-290 | one request per buffered record, the j-th request from the j-th record |
| Worker.ReplaySnoc | workgen.go:278-281 | a record appended to the buffer is replayed after all earlier ones |
| Worker.Transmit | workgen.go:282-289 | the request sent for one record is Send of it (over HTTP through a pointer to a copy) |
| Worker.UserWorker.constructor | workgen.go:274 | a new worker has an empty buffer and is buffering |
| Worker.UserWorker.Receive | workgen.go:278-279 | a received command goes to the end of the buffer |
| Worker.UserWorker.Start | workgen.go:280-291 | every buffered command is sent, in buffer order, and the worker is done |
| Routing.Route | workgen.go:77-97 | a command named exactly DUMPLOG replaces the stashed one and touches no buffer; any other is appended to the buffer of values[1], created empty on first sight, and no other buffer changes |
| Routing.RouteAll | workgen.go:73-97 | the routing loop never drops a user, and a buffer only grows at its end |
| Routing.UserLines | workgen.go:86-96 | the commands routed to a user are script commands naming that user, none of them a DUMPLOG |
| Routing.UserLinesSnoc | workgen.go:86-96 | a script grown by one line adds that line to its user's commands and to nobody else's |
| Routing.RouteAllBuffers | workgen.go:86-96 | after the scan a user has a buffer exactly when a non-DUMPLOG command names it, and the buffer holds its commands in script order |
| Routing.LastDumplog | workgen.go:80-83 | the position found holds a DUMPLOG and none follows it |
| Routing.RouteAllDumplog | workgen.go:80-83 | the stashed record is the last DUMPLOG of the script, or the zero record if there is none |
| Routing.LowerCaseDumplogIsRouted | workgen.go:80 | a command spelled `dumplog` is buffered, not stashed |
| Routing.ParseScript | workgen.go:73-78 | the scan parses each line in order |
| Routing.ParsedPrefixRoutable | workgen.go:86 | every record of a script whose lines all parse has the values[1] that routing reads |
| Routing.Router.constructor | workgen.go:69-70 | no workers, nothing stashed, nothing sent yet |
| Routing.Router.RouteCommand | workgen.go:77-97 | the state after one line is Route of the state before; one worker per user, no two users sharing one, every worker still buffering; a user already seen keeps its worker object; nothing is sent |
| Routing.Router.Stash | workgen.go:80-83 | only the stashed record changes; nothing is sent |
| Routing.Router.Enqueue | workgen.go:86-96 | the user's buffer (new if unseen) grows by the command; no other changes, nothing is sent; a user already seen keeps its worker object |
| Routing.Router.AddWorker | workgen.go:87-91 | a fresh empty worker is added for the new user, no other worker changes and nothing is sent |
| Routing.Router.Deliver | workgen.go:96 | only that user's buffer grows, by the command; nothing is sent |
| Routing.Router.RouteScript | workgen.go:73-97 | the state after the scan is RouteAll of the parsed lines; every worker created earlier is kept and nothing is sent during the scan |
| Routing.Router.RouteCommands | workgen.go:73-97 | the loop keeps the state equal to RouteAll of the lines seen so far, never replaces a user's worker and sends nothing |
| Routing.Router.Release | workgen.go:109-131 | every worker replays exactly its own buffer and ends done; the wire carries the replays one after another in start order, then the stashed DUMPLOG, if any, after all of them; routing state is untouched |
| Routing.Router.StartAll | workgen.go:117-119 | each worker is started exactly once, in an order that lists every user once; its replay is recorded under its user and appended to the wire in that order |
| Routing.Router.StartWorker | workgen.go:118 | one more worker done and appended to the start order, the wire extended by its replay |
| Routing.Router.Signal | workgen.go:118-119 | the signalled worker replays its own buffer onto the wire and no other entry changes |
| Routing.Router.SendDumplog | workgen.go:124-131 | the stashed record is sent, and appended to the wire, exactly when its name is non-empty |
| Routing.InUserLines | workgen.go:86-96 | every command that is not a DUMPLOG is among the commands of the user it names |
| Routing.RoutedReady | workgen.go:80-131 | after routing, every buffer and the stashed record can be sent exactly when every non-DUMPLOG record and the last DUMPLOG can be |
| Routing.OverwrittenDumplog | workgen.go:80-131 | a bare DUMPLOG that a later DUMPLOG,f replaces need not be encodable over HTTP: the run needs only the second, which is the one stashed |
| Routing.RouteFresh | workgen.go:69-97 | the scan from an empty map gives RouteAll of the script, all workers fresh, nothing sent |
| Routing.ParallelRun | workgen.go:69-131 | each user named by a command gets exactly the replay of its commands in script order; the router's wire holds exactly those replays in start order followed by the last DUMPLOG, if any, and nothing from the scan; only the records the run encodes must be sendable |
| Dispatch.HttpSendsParsedLines | workgen.go:102-104 | over HTTP one form is sent per line that parses and a refused line sends nothing |
| Dispatch.HttpSendsEveryRecord | workgen.go:102-104 | when every line parses, the i-th request is the form of the i-th record |
| Dispatch.HttpOf | workgen.go:255-260 | generateHTTPRequests sends one form for a record and nothing for a nil record |
| Dispatch.HttpRequests | workgen.go:255-260 | the requests of the HTTP branch over a script are all forms (their number is HttpSendsParsedLines) |
| Dispatch.TcpLine | workgen.go:241-250 | generateTCPRequest sends one raw line ending in a newline |
| Dispatch.ScanLines | workgen.go:73-107 | the scanner loop hands every line to the sender as it is read and keeps what it makes of each line, in script order |
| Dispatch.SequentialTcp | workgen.go:100-101 | over TCP every line is sent, in order, stripped of its brackets |
| Dispatch.ScanHttp | workgen.go:102-104 | over HTTP, for any parser, the loop sends exactly HttpRequests of the parsed lines: one form per record, nothing for a refused line |
| Dispatch.SequentialHttp | workgen.go:102-104 | with parseLine as the parser, the loop sends exactly HttpRequests of the parsed lines |
| Samples.AddLine | workgen.go:145-161 | `[1] ADD,u1,100` gives values [ADD,u1,100,1] and raw `ADD,u1,100` |
| Samples.AddLineTcp | workgen.go:241-250 | `[1] ADD,u1,100` goes over TCP as `ADD,u1,100` and a newline |
| Samples.QuoteLine | workgen.go:145-161 | `[7] QUOTE, u2, S1` gives values [QUOTE,u2,S1,7] and raw `QUOTE,u2,S1` |
| Samples.FrobLine | workgen.go:152-156 | `[2] FROB,u1` is refused with "Invalid Command" |
| Samples.UnbracketedLine | workgen.go:134-138 | `ADD,u1,100` panics |

## Left out

- Flag parsing, opening the file or reading the `-c` command, and the
  startup panics (workgen.go:33-66). `useTcp`, `useNum` and the script
  lines are plain parameters.
- The network and logging: `net.Dial`, `fmt.Fprintf`, `http.PostForm`,
  closing the response, `log.Printf` and the user-count and countdown
  output. The `userCount` counter (workgen.go:71, 92-93) feeds only that
  output, so the model has no counter. The model stops at the request that would be sent (`Request`).
- Goroutines, channels, `select`, the `sync.WaitGroup` and `time.Sleep`
  pacing. The `wg.Wait()` at workgen.go:122 is modelled by sending the
  stashed `DUMPLOG` only after every worker has replayed.
- Routing.Router.Release: the workers run concurrently, so the requests of
  different users can interleave on the network. The model starts them one
  after another in map order (`order`, any order that lists every user
  once) and each replay goes out whole; what it states is the order within
  one user and that the `DUMPLOG` comes after all replays.
- The loop-variable aliasing of `go generateHTTPRequests(&item, wg)`
  (workgen.go:287), a concurrency and runtime-semantics matter. Each
  replayed record is encoded from its own copy.
- Routing.Router.RouteScript: requires every line to parse. A line without
  `[...]` panics in `getTransactionNumber` (workgen.go:137), and a refused
  line yields a nil record that workgen.go:80 dereferences.
- Encoder.GenerateMapFromCommand: requires at least k+2 values, k being the
  number of flags set. With k+1 values the last pop leaves an empty slice,
  and what follows depends on its spare capacity. `strings.Split` returns a
  full slice, and the `append` at workgen.go:159 grows it to at least twice
  its length. So a line with two or more fields leaves spare capacity: the
  source reads the spare slot and sends an empty transaction when `useNum`
  is on, and panics when it is off. A one-field line such as
  `[1] COMMIT_BUY` leaves none, and `c.values[0:1]` at workgen.go:237
  panics. With fewer values it always panics.
- Dispatch.SequentialHttp: requires every line to have its `[...]` and every
  parsed record to have enough fields, for the same panics as above. It
  therefore also excludes the k+1 case that does not panic.
- Routing.ParallelRun: requires every record it encodes to have k+2 values,
  as above, so it also excludes the k+1 case on a line of two or more
  fields with `useNum` on, which the source sends with an empty
  transaction.
- Strings are sequences of code points rather than UTF-8 bytes. Invalid
  UTF-8 is not modelled.
- GoStrings.ToUpper and GoStrings.ToUpperChanges: maps only a-z, U+0131 and U+017F. These are the only
  runes whose Go upper case is ASCII, so the model decides equality with
  the ASCII command names as Go does. Other runes are not upper-cased, and
  ToUpperChanges describes this simplified mapping, not Go's.
- `bufio.Scanner` splitting the input into lines is not modelled: lines
  are given. In the source the scanner strips every newline, so the
  dot-all newline case of the pattern never arises there.
