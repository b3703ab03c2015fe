# Verified models of ag-core

ag-core is a Go application framework. This project models the parts of it whose correctness is hardest to see and
proves, in Dafny, what they promise. `dafny verify dfyconfig.toml` checks everything.

| Files | What they model |
|---|---|
| `Text`, `Placeholder*` | `${...}` placeholders in configuration values: the scanner, the rewriting loop with its visited map, its meaning, the values of placeholders, its cycle detection, and when it ends |
| `Connection`, `LengthField`, `Framing`, `Traffic`, `FramingRun` | a connection of agonet as a byte queue in two buffers, the length-field codecs on it, the loop's packet and Wake events, and whole runs of them |
| `Engine*` | several event loops sharing a connection quota, dialling clients and shutdown, as one state machine: its invariant, its quota, who is told what and why, and its progress |
| `Where*` | the lexer and parser of WHERE conditions in any case, the printer they undo, its rewriting of wildcards, and the filter in front of it |
| `Formulas` | formulas in three-valued logic, and when two of them over the same predicates differ |
| `Clause*` | the WHERE builder: its SQL text, its arguments, its call chains, and what its trees and chains mean |
| `ReadThrough` | the read-through cache with one flight per key |
| `Handler*` | log-handler factories that refer to each other |
| `Pipeline`, `PipelineWalk` | the chain of handlers and its lock-free traversal |
| `CopyOnWrite`, `PropertySources` | the copy-on-write slice and the ordered property sources on it |
| `TaskQueue` | the bounded queue of log tasks with its drop strategies |

Code that changes objects step by step is modelled as classes whose methods are proved against functions on values;
the results are lemmas about those functions. Concurrent code is a state machine with a step for every access to
shared state, and a run is any interleaving of steps.

Where code and documentation disagree the model follows the code. These are the places, each with a lemma below:

- Placeholder resolution with defaults can run for ever (`DefaultsCanUnrollForEver`).
- `AddBefore` and `AddAfter` miss their place when a source of the same name stood in front (`AddBeforeIsExact`,
  `AddAfterIsExact`).
- A WHERE condition with a child joined by OR is misread beside an AND (`SqlIsExactOnGuardedTrees`), and a first operand
  that is a group takes in what is added after it (`ChainsSayWhatWasWritten`).
- A WHERE text that mixes AND and OR without parentheses is parsed with its last operator (`MixedListsLoseTheirMeaning`).
- The filter cuts a parameter name at an underscore, and keeps a BETWEEN whose upper bound is not set
  (`StaysExactlyWhenAllSet`); the rewriting of wildcards can panic (`PanicsExactlyOnCollisions`).
- A log handler found inside a reference cycle can be cached without handlers behind the lock (`CompletenessIsExact`).
- A panic of a traffic handler can leave complete frames unread (`PanicStrandsFrames`), and a connection limit at the end of
  the 32-bit range is not kept (`QuotaIsExact`).
- A task submitted under an unknown strategy is lost (`UnknownStrategyLosesAllTasks`).

## Model

| member | source | states |
|---|---|---|
| `PlaceholderScan.FindPlaceholderEndIndex` | ag/ag_conf/property_placeholder_helper.go:157-177 | The scan loop returns the closing position that the recursive definition `Close` gives |
| `PlaceholderScan.FindsTheMatchingSuffix` | ag/ag_conf/property_placeholder_helper.go:157-177 | A position is returned if and only if the text up to it is balanced in a bracket grammar, and -1 if and only if no position is |
| `PlaceholderScan.ClosedTextIsSpelled` | ag/ag_conf/property_placeholder_helper.go:157-177 | Whatever the scan closes has a bracket structure that ends where the scan says |
| `PlaceholderScan.SpelledTextCloses` | ag/ag_conf/property_placeholder_helper.go:157-177 | Whatever has a bracket structure before a suffix is closed there |
| `PlaceholderResolve.ParseStringValueWithVisited` | ag/ag_conf/property_placeholder_helper.go:55-154 | The rewriting loop returns the segment-wise meaning of the text: literals kept, each placeholder replaced by its expansion, inserted text never rescanned, an unclosed placeholder and all behind it copied; without an error the visited map is as it was |
| `PlaceholderResolve.ExpandPlaceholder` | ag/ag_conf/property_placeholder_helper.go:92-146 | One placeholder: mark it, resolve it to a key, look the key or its default up, resolve the value, and take the mark back |
| `PlaceholderValues.ValueIsLookedUp` | ag/ag_conf/property_placeholder_helper.go:97-116 | A key has what is set for it as a whole; else, around its first separator, what is set for the part in front; else the part behind; without a separator nothing |
| `PlaceholderValues.PlaceholderIsReplaced` | ag/ag_conf/property_placeholder_helper.go:80-150 | The first placeholder of a text becomes what the value of its key resolves to, between what stands in front of it and what the text behind it resolves to, however its key is put together; without a value it is kept as written, or its key is reported |
| `PlaceholderValues.DefaultIsForUnsetNames` | ag/ag_conf/property_placeholder_helper.go:102-115 | A placeholder with a name and a default becomes the value set for the name, and the default only when none is |
| `PlaceholderValues.NameIsLookedUp` | ag/ag_conf/property_placeholder_helper.go:97-146 | One without a default becomes the value set for the name; unset, it is kept as written or reported |
| `PlaceholderCycles.CycleDetectionIsExact` | ag/ag_conf/property_placeholder_helper.go:76-150 | Whenever the resolver returns, it reports a circular reference if and only if the same evaluation without the visited map would run for ever, and otherwise both have the same outcome; defaults and ignoring included |
| `PlaceholderCycles.ResolveAgrees` | ag/ag_conf/property_placeholder_helper.go:76-150 | An outcome other than a circular reference does not depend on the visited map |
| `PlaceholderCycles.CircularNeverEnds` | ag/ag_conf/property_placeholder_helper.go:86-89 | Where a circular reference is reported, evaluation without the visited map ends within no number of steps |
| `PlaceholderTermination.TameResolutionEnds` | ag/ag_conf/property_placeholder_helper.go:55-154 | Resolution ends for every finite property map when defaults are off, and with defaults when unset placeholders are errors and every text is clean: balanced and without a lone '$' |
| `PlaceholderTermination.ResolveEnds` | ag/ag_conf/property_placeholder_helper.go:55-154 | The measure: the placeholders that can still be met, less those being expanded |
| `PlaceholderTermination.CleanTextsResolveClean` | ag/ag_conf/property_placeholder_helper.go:100-127 | Clean texts and properties resolve to text without any '$', so nothing new can be put together |
| `PlaceholderLenient.CleanResolutionEnds` | ag/ag_conf/property_placeholder_helper.go:55-154 | Resolution of clean texts against clean values also ends when unset placeholders are kept as they are written, with delimiters whose first character, '$', stands nowhere else in them |
| `PlaceholderLenient.ResolvesTidy` | ag/ag_conf/property_placeholder_helper.go:100-146 | Why: what clean texts resolve to is clean again, and its placeholders, at every depth, are placeholders of the texts there were to begin with |
| `PlaceholderLenient.ReplacePlaceholders` | ag/ag_conf/property_placeholder_helper.go:33-39 | On all such texts the entry point always returns, with the outcome of the evaluation without visited map, or a circular reference exactly when that one would not end |
| `PlaceholderUnrolls.DefaultsCanUnrollForEver` | ag/ag_conf/property_placeholder_helper.go:102-115 | Without clean texts it need not end: with the property values `$`, `}`, `${a}{z:${a}{p}X` and `${a}{q}${b}` the text `${z:${p}${q}}` is never resolved and never reported as circular, because each default joins to a new placeholder |
| `PlaceholderUnrolls.DefaultIsNext` | ag/ag_conf/property_placeholder_helper.go:105-114 | Why: the default of the n-th placeholder resolves to the text of the next, longer one |
| `Connection.Conn.Unpack` | contribute/agonet/connection.go:73-88 | A packet joins the end of the byte queue, unless the connection was released |
| `Connection.Conn.Read` | contribute/agonet/connection.go:99-120 | Fills the caller's buffer from the front of the two-buffer queue and removes just those bytes; reports a short buffer only when nothing was read |
| `Connection.Conn.Next` | contribute/agonet/connection.go:142-177 | Takes the next n bytes of the queue, none for n <= 0, or refuses and takes nothing when there are fewer |
| `Connection.Conn.Peek` | contribute/agonet/connection.go:179-233 | Shows the next n bytes, all for n <= 0, and leaves the queue as it is, wherever the ring wraps |
| `Connection.Conn.Discard` | contribute/agonet/connection.go:235-267 | Drops the next n bytes; drops everything for n <= 0 or n beyond the end |
| `Connection.Conn.InboundBuffered` | contribute/agonet/connection.go:269-275 | The length of the queue |
| `Connection.Conn.Flush` | contribute/agonet/event_loop.go:245-255 | Moving the packet's rest to the leftovers leaves the queue unchanged and the packet buffer empty |
| `Connection.Conn.Release` | contribute/agonet/connection.go:412-432 | A released connection holds nothing |
| `LengthField.PackFieldLength` | contribute/agonet/simple/codec_length_field_decoder.go:171-195 | The field bytes are those of the number in the byte order and width given; a number over the capacity is refused |
| `LengthField.BigEndianValue` | contribute/agonet/simple/codec_length_field_decoder.go:155-169 | A big-endian field has its most significant byte first; 1, 2 and 4 bytes are unsigned, 8 bytes in two's complement |
| `LengthField.LittleEndianValue` | contribute/agonet/simple/codec_length_field_decoder.go:155-169 | A little-endian field is the big-endian one of its bytes in reverse |
| `LengthField.BinaryFieldRoundTrip` | contribute/agonet/simple/codec_length_field_decoder.go:155-195 | A 1, 2, 4 or 8-byte field that is written reads back as the number exactly when the number is non-negative or the field has 8 bytes, in both byte orders |
| `LengthField.DecimalFieldDenotes` | contribute/agonet/simple/codec_length_field_str_decoder.go:152-172 | A decimal field holds a number exactly if it is white space, a sign or none, numerals, and white space again, and the number fits 64 bits; and then it holds that one |
| `LengthField.DecimalFieldRoundTrip` | contribute/agonet/simple/codec_length_field_str_decoder.go:152-190 | A zero-padded decimal field reads back as n for every 0 <= n < 10^width that fits 64 bits, and longer numbers are refused, not cut |
| `Framing.Decode` | contribute/agonet/simple/codec_length_field_decoder.go:85-153 | The frame at the front of a stream in unbounded arithmetic: a frame has a size between the end of its length field and the maximum, lies within the bytes at hand, and its body starts behind the stripped bytes |
| `Framing.FrameBehindHeader` | contribute/agonet/simple/codec_length_field_decoder.go:85-153 | For every decoder, behind any header of the offset's length: when exactly the stream is refused as too short, too long, or shorter than what is to be stripped, when more bytes are waited for, and which bytes are handed on otherwise |
| `Framing.FieldWithoutLength` | contribute/agonet/simple/codec_length_field_decoder.go:85-110 | A field without a number, or with a negative one, is refused; before the field has arrived nothing is decided |
| `Framing.WrappedSize` | contribute/agonet/simple/codec_length_field_decoder.go:108-125 | With 64-bit wrap-around the checks accept just the frame lengths that the unbounded sum gives, and then the two are equal |
| `Framing.DoDecode` | contribute/agonet/simple/codec_length_field_decoder.go:85-153 | One decode attempt on a connection is all or nothing: it takes exactly the frame that `Decode` finds and returns its body, or leaves the queue unchanged |
| `Framing.DecodeLonger` | contribute/agonet/simple/codec_length_field_str_decoder.go:79-148 | A frame found, or refused, stays so whatever arrives later |
| `Framing.FrameRoundTrip` | contribute/agonet/simple/codec_length_field_encoder.go:41-54 | What the encoder writes for a body is decoded to that body by the matching decoder, whatever follows, exactly when the length fits the field and the frame the maximum |
| `Framing.StreamRoundTrip` | contribute/agonet/simple/codec_length_field_str_encoder.go:33-46 | The decoder finds in the encoder's stream just the bodies written, in order |
| `Traffic.ResolveInboundLimit` | contribute/agonet/event_loop.go:196-205 | The limit is the configured one from 1 MB up, 1 MB for smaller positive ones, and 16 MB by default |
| `Traffic.OnTraffic` | contribute/agonet/simple/simple_event_handler.go:117-162 | One decode attempt per event; a Wake is asked for exactly when bytes remain after a frame and no handler panicked on it; a refused stream or such a panic closes unless the exception handlers cope |
| `Traffic.EffectByOutcome` | contribute/agonet/simple/simple_event_handler.go:127-159 | An incomplete frame changes nothing, a whole one is handed on and asks for a Wake if bytes are left and no handler panicked, a refused stream hands on nothing and fails |
| `Traffic.StatusByOutcome` | contribute/agonet/event_loop.go:219-243 | The connection closes on an error exactly for a refused stream or a panic with which the exception handlers do not cope, and on an overflow exactly when a packet leaves more than the limit otherwise |
| `Traffic.ReadEvent` | contribute/agonet/event_loop.go:219-258 | A packet event: between events the packet buffer is empty, an open connection retains at most the limit, and frames, rest and status are those of `EffectOn` and `StatusAfter` |
| `Traffic.WakeEvent` | contribute/agonet/event_loop.go:260-266 | A Wake event: the same without a packet and without the check of the limit |
| `FramingRun.FramesAreThoseOfTheStream` | contribute/agonet/event_loop.go:219-266 | However a stream is cut into packets and whatever stale Wakes, panics of handlers and closings come between: the frames handed on are a prefix of the stream's frames; once nothing is under way they are all of them if and only if the last event did not leave a complete frame without its Wake; and an open connection retains no more than the limit |
| `FramingRun.UndisturbedRunsDeliverAll` | contribute/agonet/simple/simple_event_handler.go:148-159 | Where no Wake is refused and no handler panics, all frames are handed on |
| `FramingRun.PanicStrandsFrames` | contribute/agonet/simple/simple_event_handler.go:127-144 | A panic of a handler with which the exception handlers cope skips the Wake: frames that came in the same packet stay behind, with nothing under way |
| `FramingRun.EncodedBodiesArrive` | contribute/agonet/simple/simple_event_handler.go:148-159 | For a stream written by the matching encoder the bodies arrive in order, and at quiescence all of them under the same condition |
| `FramingRun.RunKeepsInvariant` | contribute/agonet/simple/simple_event_handler.go:148-159 | At any time delivered and remaining frames are those of the stream, and when a complete frame is buffered an event or a Wake is pending, or the last event dropped its Wake |
| `FramingRun.ClosedExactlyOnFailure` | contribute/agonet/event_loop.go:219-243 | In every run, what each event does to an open connection: when exactly it is closed and why, what is handed on, and that a refused stream asks for no Wake |
| `FramingRun.ClosedByOthersExactly` | contribute/agonet/connection.go:342-357 | The peer, the application or the engine can close the connection at any time, and nothing but that and the events above does |
| `FramingRun.RunKeepsBounds` | contribute/agonet/event_loop.go:219-243 | The queue keeps within its capacity, and a closed connection stays closed and is handed nothing more |
| `FramingRun.GoodStreamsStayOpen` | contribute/agonet/event_loop.go:236-243 | A stream of whole frames within the limit makes the loop close the connection only after a panic of a handler with which the exception handlers do not cope |
| `FramingRun.EncodedStreamsStayOpen` | contribute/agonet/event_loop.go:236-243 | A connection whose stream the matching encoder wrote, within the limit, is closed by the loop only after such a panic |
| `FramingRun.RunsAreBounded` | contribute/agonet/simple/simple_event_handler.go:151-158 | Every run is finite: its number of steps is bounded by four times the stream and twice the events from outside |
| `FramingRun.BusyMeansEnabled` | contribute/agonet/connection.go:367-386 | As long as something is under way, the loop or its reader has a step to take |
| `Engine.DetermineEventLoops` | contribute/agonet/agonet.go:69-81 | The configured number if positive, else one per processor with multicore and one without, at most 256 |
| `EngineResults.QuotaIsSafe` | contribute/agonet/event_loop.go:152-170 | For every interleaving of the loops: admitted connections never exceed the limit, the shared counter is ahead of them by at most one per loop and does not wrap, each loop's count is the size of its map, and once all loops have stopped the counter is zero |
| `EngineQuota.QuotaIsExact` | contribute/agonet/event_loop.go:152-170 | A positive limit is kept in every run, for every interleaving, if and only if it leaves room for one connection per loop below the end of the 32-bit range |
| `EngineQuota.SomeRunAdmitsTooMany` | contribute/agonet/event_loop.go:152-153 | Otherwise some run from the start admits one connection too many: refused connections not yet rolled back take the counter to its end, and the next one wraps it |
| `EngineResults.EachAdmissionIsUndoneOnce` | contribute/agonet/event_loop.go:268-276 | The quota is taken at most once for a connection, given back at most once, and held exactly while the connection is in its loop's hands |
| `EngineResults.CallbackRunsOnce` | contribute/agonet/event_loop.go:143-191 | The callback of a dialled connection runs at most once, and has run once its loop has gone on; it tells success exactly when the connection was registered and OnOpen did not panic |
| `EngineNotices.NoticeHasItsCause` | contribute/agonet/event_loop.go:126-190 | In every run a dialled connection is told EngineShutdown exactly if its loop took it in reject mode, which is after the cancellation; MaxConnRejected exactly if a limit was set and the counter had reached it; OnOpenPanicked exactly if its OnOpen panicked; and otherwise that it is open |
| `EngineNotices.WithoutLimitAllAreOpened` | contribute/agonet/event_loop.go:143-164 | Without a limit and before the cancellation no dialled connection is turned away |
| `EngineNotices.DialReturnsItsNotice` | contribute/agonet/client.go:171-260 | A Dial returns what its connection was told, or that the engine shuts down once it does |
| `EngineNotices.NoDialAfterShutdown` | contribute/agonet/client.go:171-215 | A Dial that begins after the cancellation returns that the engine shuts down, and its connection never reaches a loop |
| `EngineNotices.ClosedWhenAsked` | contribute/agonet/event_loop.go:184-323 | A connection whose handler asks for its close, or panics, is out of its loop's map once the close has begun, and never comes in again |
| `EngineNotices.DemandCancels` | contribute/agonet/event_loop.go:63-84 | After a demand for shutdown the loop leaves and cancels the engine |
| `EngineNotices.CancelledOnlyOnDemand` | contribute/agonet/event_loop.go:44-84 | The engine is cancelled only if somebody asked for it, or a handler or an event demanded it |
| `EngineResults.WaitingDialIsServed` | contribute/agonet/client.go:205-257 | A waiting Dial has been told, or its connection is queued or in hand at a loop that still works, or the engine is cancelled, which ends the wait |
| `EngineResults.DialWaitsBoundedly` | contribute/agonet/event_loop.go:126-141 | Between posting and notice the loop takes at most ten steps for each queued event and nine for the one in hand |
| `EngineResults.LoopOfWaitingDialCanMove` | contribute/agonet/event_loop.go:44-83 | The loop of a waiting Dial always has a step to take |
| `EngineProgress.LoopStepsAreBounded` | contribute/agonet/event_loop.go:44-141 | No loop spins: in every run it takes at most 60 steps for each event posted to it, and 5 more |
| `EngineProgress.LoopCanGoOn` | contribute/agonet/event_loop.go:44-141 | Every loop that has not stopped and does not wait for events can take a step; so after the cancellation, when no more events come, all loops stop |
| `EngineProgress.StoppedIsEmpty` | contribute/agonet/event_loop.go:44-57 | A loop that has stopped has closed all its connections |
| `EngineProgress.DeadlineIsLookedAt` | contribute/agonet/event_loop.go:107-121 | A loop drains once it sees the cancellation, rejects once its deadline has passed, and looks at the deadline between any two events of the drain |
| `EngineProgress.EventsAreHandled` | contribute/agonet/event_loop.go:86-141 | Events are taken in order: a connection is opened, or turned away by a loop that rejects; other events are served exactly if the connection is still in the map and the loop does not reject |
| `EngineProgress.ServedIsKept` | contribute/agonet/event_loop.go:219-266 | A handler that asks for nothing leaves the connection in the map, and the loop goes on |
| `EngineSafety.StepKeepsInvariant` | contribute/agonet/event_loop.go:86-121 | Every step of a loop, a client or the acceptor keeps the invariant of the quota, the counters, the queues and the callbacks |
| `EngineSafety.LoopKeepsConnOk` | contribute/agonet/event_loop.go:143-191 | Whatever a loop does, the history of each of its connections stays in order: queued once, taken once, counted once, told once |
| `EngineSafety.LoopCounts` | contribute/agonet/event_loop.go:152-154 | What is admitted and what is over the limit change just as the shared counter does |
| `WhereLexer.Lexer.Next` | tool/cmd/gen-go-db/excel/parser_where.go:44-235 | The lexer returns the token that the position-wise definition gives, and gets on by at least one character unless the text is at its end |
| `WhereLexer.Lexer.ScanExpression` | tool/cmd/gen-go-db/excel/parser_where.go:119-234 | The loop with its BETWEEN and IN flags and its depth ends the expression where `Scan` does |
| `WhereLexer.NextTokenAdvances` | tool/cmd/gen-go-db/excel/parser_where.go:44-235 | A token takes at least one character, for every text and position |
| `WhereParser.Parser.ParseExpression` | tool/cmd/gen-go-db/excel/parser_where.go:259-286 | The recursive descent over the lexer computes `ParseExpr` of the tokens ahead and leaves the rest |
| `WhereParser.Parser.ParseCondition` | tool/cmd/gen-go-db/excel/parser_where.go:289-325 | A condition in parentheses, an expression, or nothing, as `ParseCond` of the tokens ahead |
| `WhereParser.ParseWhereCondition` | tool/cmd/gen-go-db/excel/parser_where.go:328-341 | Nothing for a blank text, else the clause that its tokens parse to |
| `WhereWildcards.PanicsExactlyOnCollisions` | tool/cmd/gen-go-db/conditonwhere/fieldmask.go:84-155 | Rewriting an expression panics if and only if a parameter that wildcards touch ends with a wildcard and another parameter follows directly |
| `WhereWildcards.TwoParametersAroundOneWildcard` | tool/cmd/gen-go-db/conditonwhere/fieldmask.go:126-130 | For example on `@a%@b` |
| `WhereWildcards.ParametersAreConcatenated` | tool/cmd/gen-go-db/conditonwhere/fieldmask.go:84-155 | For every expression whose named parameters no wildcard joins: each parameter that wildcards touch becomes a CONCAT of the wildcards before it as a string, itself, and those behind it; everything else is kept |
| `WhereWildcards.NameCharacters` | tool/cmd/gen-go-db/conditonwhere/fieldmask.go:105-112 | Digits, letters of ASCII and the underscore make up names |
| `WherePrinter.WithoutWildcardsNothingChanges` | tool/cmd/gen-go-db/conditonwhere/fieldmask.go:84-155 | An expression in which no wildcard touches a parameter is printed as it is |
| `WherePrinter.GenerateWhereSQL` | tool/cmd/gen-go-db/conditonwhere/fieldmask.go:20-44 | The printer joins the printed parts by the operator in parentheses; the first part that fails decides |
| `WherePrinter.GroupsArePrinted` | tool/cmd/gen-go-db/conditonwhere/fieldmask.go:20-44 | A group without conditions is an error, one with a part that cannot be printed fails as the first of those does, and one without an operator is joined by AND |
| `WhereRoundTrip.ParsingUndoesPrinting` | tool/cmd/gen-go-db/excel/parser_where.go:328-341 | Parsing the printed SQL of a condition tree gives the tree back as the one element of an AND clause, for all trees of comparisons, BETWEEN and [NOT] IN over AND and OR groups of any depth |
| `WhereRoundTrip.TokensOfText` | tool/cmd/gen-go-db/excel/parser_where.go:44-235 | The lexer reads the printed text of a tree, wherever it stands, as the tokens of the tree |
| `WhereRoundTrip.ParseTree` | tool/cmd/gen-go-db/excel/parser_where.go:259-325 | The parser turns the tokens of a tree back into it, whatever comes after |
| `WhereRoundTrip.PrintsText` | tool/cmd/gen-go-db/conditonwhere/fieldmask.go:20-44 | The printer prints a tree of such leaves without error as the text the lexer lemmas speak of |
| `WhereMixed.MixedListsLoseTheirMeaning` | tool/cmd/gen-go-db/excel/parser_where.go:259-286 | For every list of conditions, with lists in parentheses to any depth and no expression repeated: its text is parsed into what it says, AND binding tighter than OR, for every truth of the expressions, if and only if no list of it, at any depth, mixes operators |
| `WhereMixed.TokensOfPhrase` | tool/cmd/gen-go-db/excel/parser_where.go:44-235 | The lexer reads the text of such conditions, wherever it stands, as their tokens |
| `WhereMixed.MixedMeet` | tool/cmd/gen-go-db/excel/parser_where.go:272-284 | Where a list mixes operators, two expressions meet at an AND in what is written and at an OR in what is parsed, or the other way round |
| `WhereMixed.LastOperatorCounts` | tool/cmd/gen-go-db/excel/parser_where.go:272-284 | The text of such a list is parsed into its conditions under its last operator, and so are the lists within |
| `WhereCase.TreesParseInAnyCase` | tool/cmd/gen-go-db/excel/parser_where.go:66-235 | However the case of operators and keywords is chosen, the text of a tree is parsed into that tree, its expressions in the case they are written in |
| `WhereScan.KeywordInAnyCase` | tool/cmd/gen-go-db/excel/parser_where.go:66-187 | A keyword is read exactly where its letters stand in upper or lower case (or with a dotless i) between the boundaries of the source |
| `WhereNested.ListIsOneExpression` | tool/cmd/gen-go-db/excel/parser_where.go:118-235 | A column compared with a list, also with a subquery, is one expression up to the parenthesis that matches the one behind IN, whatever keywords and parentheses stand between |
| `WhereNested.ParenthesisEndsExpression` | tool/cmd/gen-go-db/excel/parser_where.go:199-230 | Outside of a list an expression ends in front of a parenthesis |
| `WhereNested.BlankTextIsNothing` | tool/cmd/gen-go-db/excel/parser_where.go:328-341 | Nothing is parsed from just the texts of white space |
| `WhereNested.MissingParenthesisIsForgiven` | tool/cmd/gen-go-db/excel/parser_where.go:289-325 | A group whose closing parenthesis is missing is read all the same, and what follows is left for what comes next |
| `WhereNested.KeywordsAreTokens` | tool/cmd/gen-go-db/excel/parser_where.go:66-117 | AND, OR, IN and NOT IN between blanks, in any case, are tokens where an expression could begin |
| `WhereNested.SeparatorsAreSkipped` | tool/cmd/gen-go-db/excel/parser_where.go:46-54 | Blanks, tabs and commas between tokens do not matter |
| `WhereNested.OtherCharactersBeginTokens` | tool/cmd/gen-go-db/excel/parser_where.go:46-64 | At any other character a token begins, and the tokens behind it are those of the text from its end on |
| `WhereNested.TrimsWhiteSpace` | tool/cmd/gen-go-db/excel/parser_where.go:234 | The white space of Unicode is trimmed off both ends of an expression, and nothing else |
| `WhereScan.KeywordIsWord` | tool/cmd/gen-go-db/excel/parser_where.go:71-117 | A keyword is read only where a whole word spells it, in any case |
| `WhereFilter.FilterMaskWhereCondition` | contribute/agdb/conditonwhere/fieldmask.go:196-244 | The recursive loop computes `Filtered`; a missing mask filters everything |
| `WhereFilter.ExtractParamName` | contribute/agdb/conditonwhere/fieldmask.go:152-167 | The name is the text behind the first '@' up to a blank, a closing parenthesis or a wildcard |
| `WhereFilter.NameIsReadUpTo` | contribute/agdb/conditonwhere/fieldmask.go:152-167 | The name goes from the first sign to the first blank, closing parenthesis or wildcard behind it |
| `WhereFilter.NoNameIsRead` | contribute/agdb/conditonwhere/fieldmask.go:152-157 | An expression without the sign of a parameter has no name, so no mask takes it out |
| `WhereFilter.StaysExactlyWhenSetInLike` | contribute/agdb/conditonwhere/fieldmask.go:152-244 | A comparison with wildcards around its parameter is left just when the parameter is set, if and only if its name has no underscore |
| `WhereFilter.FilterKeepsTheSet` | contribute/agdb/conditonwhere/fieldmask.go:196-244 | What is left are exactly the expressions without a parameter or with their first parameter, as the source reads its name, set, in order; nothing is returned exactly when none is left |
| `WhereFilter.FilterKeepsTheShape` | contribute/agdb/conditonwhere/fieldmask.go:196-244 | Filtering only takes parts away: expressions, operators, nesting and order of what is left are as they were |
| `WhereFilter.FilteredIsPrinted` | contribute/agdb/conditonwhere/fieldmask.go:19-43 | What the filter leaves is printed if and only if in none of its expressions parameters collide around wildcards |
| `WhereFilter.FilteredWithoutWildcardsIsPrinted` | contribute/agdb/conditonwhere/fieldmask.go:19-43 | In particular if no wildcard touches a parameter |
| `WhereFilter.FilterKeepsAll` | contribute/agdb/conditonwhere/fieldmask.go:196-244 | With every parameter set a printable tree is left as it is |
| `WhereFilter.StaysExactlyWhenAllSet` | contribute/agdb/conditonwhere/fieldmask.go:152-167 | A comparison, IN or BETWEEN is left just when all its parameters are set, whichever those are, if and only if its first parameter has no underscore, where the source cuts the name, and a BETWEEN has one parameter for both bounds, since the source never looks at the second |
| `ClauseBuilder.BuildWhereCondition` | contribute/agdb/conditonwhere/where_clause_builder.go:346-405 | The printing loop with its part list gives the SQL and arguments of `SqlOf` |
| `ClauseBuilder.BuildNestedGroup` | contribute/agdb/conditonwhere/where_clause_builder.go:408-447 | A group's loop gives the same, always in parentheses |
| `ClauseBuilder.NeedParentheses` | contribute/agdb/conditonwhere/where_clause_builder.go:451-464 | True exactly when both AND and OR are among the parts |
| `ClauseTheorem.SqlKeepsTheMeaning` | contribute/agdb/conditonwhere/where_clause_builder.go:346-464 | The SQL, read with AND tighter than OR and its placeholders filled from left to right, has the truth value of the tree in three-valued logic for every truth of its predicates, for all trees in which no bare OR prints beside an AND; nothing is printed exactly when the tree says nothing |
| `ClauseTheorem.OnlyRootWithBothKeepsTheMeaning` | contribute/agdb/conditonwhere/where_clause_builder.go:346-464 | In particular for every tree in which only the root has both a field and children |
| `ClauseExact.SqlIsExactOnGuardedTrees` | contribute/agdb/conditonwhere/where_clause_builder.go:346-464 | For every tree that repeats no predicate: the SQL has the tree's meaning for every truth of the predicates if and only if no bare OR prints beside an AND |
| `ClauseExact.UnguardedIsMisread` | contribute/agdb/conditonwhere/where_clause_builder.go:398-402 | For every other such tree there is a truth of its predicates for which the SQL is misread |
| `ClauseExact.PrintsWhatSaysSomething` | contribute/agdb/conditonwhere/where_clause_builder.go:393-395 | For every tree, guarded or not, nothing is printed exactly when the tree says nothing |
| `ClauseParts.ReadsAsParts` | contribute/agdb/conditonwhere/where_clause_builder.go:346-464 | How the SQL of any tree reads: children without parentheses fall apart into their parts, which mix with those around them |
| `ClauseChain.BareOrBesideAndIsMisread` | contribute/agdb/conditonwhere/where_clause_builder.go:398-402 | The condition is needed: `x` AND a condition `y` with a child `z` joined by OR reads as `(x AND y) OR z`, right exactly when `z` is at most as true as `x` |
| `ClauseChain.ChainsKeepTheMeaning` | contribute/agdb/conditonwhere/where_clause_builder.go:57-301 | Every chain of builder calls that hands over no condition with both a field and children makes a tree whose SQL has the tree's meaning |
| `ClauseCalls.ChainsSayWhatWasWritten` | contribute/agdb/conditonwhere/where_clause_builder.go:57-301 | For every chain of calls that repeats no predicate and hands over no condition with both a field and children, its groups read as operands: the SQL says what was written, for every truth of the predicates, if and only if the first operand is not a group, begun and ended or added as one, that has an OR in it and an AND behind it |
| `ClauseCalls.FirstOperandTakesInTheRest` | contribute/agdb/conditonwhere/where_clause_builder.go:76-84 | Whatever is called, the builder has what was written, but for the operands behind the first one: they have become its children |
| `ClauseChain.ClosedFirstGroup` | contribute/agdb/conditonwhere/where_clause_builder.go:268-301 | The smallest such chain, `(x OR y) AND z` written as group, close, condition, becomes `x OR y AND z`: the same just for those truth values where `x` is at most as true as `z` |
| `ClauseChain.WhereClauseBuilder.Add` | contribute/agdb/conditonwhere/where_clause_builder.go:57-85 | Adding a condition: its operator is the pending one, else the open group's, else AND, and it goes below the innermost open group or the root |
| `ClauseChain.WhereClauseBuilder.Open` | contribute/agdb/conditonwhere/where_clause_builder.go:268-293 | Opening a group puts an empty group there and makes it the innermost |
| `ClauseArgs.PlaceholdersBind` | contribute/agdb/conditonwhere/where_clause_builder.go:346-522 | For every tree the placeholders take the values of the tree's predicates in order, none missing and none left over |
| `ClauseArgs.PlaceholdersAreCounted` | contribute/agdb/conditonwhere/where_clause_builder.go:346-522 | As many placeholders as arguments |
| `ClauseArgs.FailsExactlyOnMalformed` | contribute/agdb/conditonwhere/where_clause_builder.go:467-522 | Building fails if and only if some field in the tree has a value that does not suit its operator |
| `ReadThrough.FlightsAreSound` | ag/ag_cache/typed.go:93-160 | In every interleaving: one leader per key, nobody waits without one, no caller calls a loader twice, a caller that met an engine error other than a miss calls none, and a miss is returned only if a loader returned it |
| `ReadThrough.DecisionIsKept` | ag/ag_cache/typed.go:93-160 | What a step decides for a caller is what it returns: a failing engine at the first look or the second, a hit, a failing loader, the end of the write |
| `ReadThrough.ResultIsDecided` | ag/ag_cache/typed.go:93-160 | Every result was decided so, by the caller itself or by the leader of a flight for the same key |
| `ReadThrough.LandingIsShared` | ag/ag_cache/typed.go:110-160 | When a flight ends everybody who waits for it gets the result of its leader |
| `ReadThrough.EntriesChangeOnlyByWrites` | ag/ag_cache/typed.go:139-156 | Entries change only by a write that succeeds, of what was loaded, and by others |
| `ReadThrough.LoaderSucceedsAtMostOnce` | ag/ag_cache/typed.go:110-156 | For a key not cached at first and left alone, with a serializer that brings values back and writes that succeed, a loader succeeds at most once; every value returned is that one, any other result the engine's fault or a loader's error |
| `ReadThrough.LoadsAreBoundedByLosses` | ag/ag_cache/typed.go:110-156 | In every run, with any serializer and whoever else writes, deletes or evicts: a loader of a key succeeds at most once for each time its entry is removed or a loaded value is not written, and once more if there was no entry to begin with |
| `ReadThrough.CachedKeyIsNotLoaded` | ag/ag_cache/typed.go:96-104 | A cached key that is left alone is never loaded |
| `HandlerBuilder.Builder.ResolveHandler` | ag/ag_log/agslog/slog_wrap_config.go:361-385 | The recursive method with its caches and locks ends and computes `Resolve` on the state of caches, instances and locks |
| `HandlerBuilder.Builder.GetHandler` | ag/ag_log/agslog/slog_handler.go:103-132 | Lock, look for an instance, build, store, unlock, as `GetHandler` on the state |
| `HandlerBuilder.Builder.ResolveChildren` | ag/ag_log/fanout/slog_fanout.go:54-63 | The loop collects the children that can be had, in order |
| `HandlerBuilder.Builder.Build` | ag/ag_log/async/ag_async.go:44-54 | Fanout and failover need one child, async its only one |
| `HandlerBuilder.Builder.AddHandler` | ag/ag_log/agslog/slog_wrap_config.go:301-331 | A handler is registered unless its name is taken |
| `HandlerResolution.Resolve` | ag/ag_log/agslog/slog_wrap_config.go:361-385 | Every lock held before is held after, and no other |
| `HandlerReach.ResolvesExactlyWhatReaches` | ag/ag_log/agslog/slog_wrap_config.go:361-385 | On any reference graph, after any earlier resolutions, a name resolves if and only if its references lead to a registered handler or a factory that makes its own; all locks are released |
| `HandlerReach.ReachedResolves` | ag/ag_log/agslog/slog_handler.go:103-115 | With some locks held, a name resolves if its references lead to a handler around the locked factories |
| `HandlerReach.ResolvedHandlersAreReferredTo` | ag/ag_log/failover/slog_failover.go:47-65 | A resolved handler contains only handlers its name's references lead to |
| `HandlerShape.HandlersAreAsConfigured` | ag/ag_log/agslog/slog_wrap_config.go:361-385 | After any resolutions a registered name has its handler and every other name that resolves that of its first factory, which is made as configured: it combines handlers of its children in their order, wraps that of its one child, or is its own |
| `HandlerShape.ResolvedForGood` | ag/ag_log/agslog/slog_wrap_config.go:361-385 | A name that was resolved has the same handler ever after |
| `HandlerExact.CompletenessIsExact` | ag/ag_log/agslog/slog_wrap_config.go:361-385 | For every reference graph: in whatever order names are resolved and factories list their children, every name resolves to a handler with just the registered handlers its references lead to, if and only if no path of references ends at a factory all of whose ways to some registered handler lead back to the path while another way to a handler does not |
| `HandlerExact.BlockedIsCut` | ag/ag_log/agslog/slog_handler.go:103-132 | Where there is such a path, resolving its first name first, with each factory of it listing the next one first, leaves the last one cached without that handler |
| `HandlerComplete.UnblockedIsComplete` | ag/ag_log/agslog/slog_wrap_config.go:361-385 | For one name: if no factory its references lead to is blocked so, it is resolved completely after any earlier resolutions; the result contains a registered handler if and only if the references lead there |
| `HandlerComplete.WithoutCyclesAllIsComplete` | ag/ag_log/agslog/slog_wrap_config.go:361-385 | In particular if its references lead to no cycle |
| `HandlerReach.CyclesAreCutWhereEntered` | ag/ag_log/agslog/slog_handler.go:103-115 | The smallest case: of two names that refer to each other, the one resolved second comes without the other's handler, though its references lead there |
| `Pipeline.HandlerChain.AddFirst` | contribute/agonet/simple/pipeline.go:131-140 | The new context stands directly behind the head, the others as before, linked both ways |
| `Pipeline.HandlerChain.AddLast` | contribute/agonet/simple/pipeline.go:143-152 | The new context stands directly before the tail |
| `Pipeline.HandlerChain.NextHandler` | contribute/agonet/simple/context.go:133-146 | The forward walk finds the first later context that handles the kind |
| `Pipeline.HandlerChain.PrevHandler` | contribute/agonet/simple/context.go:149-162 | The backward walk finds the nearest earlier one |
| `PipelineWalk.BothChainsAreComplete` | contribute/agonet/simple/pipeline.go:131-152 | After every single pointer store of an insertion, the forward and the backward chain are complete between head and tail, over all contexts but at most the one being inserted |
| `PipelineWalk.InsertionCanBegin` | contribute/agonet/simple/pipeline.go:131-152 | When none is under way, an insertion of any new context can begin at either end, so the runs are those of all callers |
| `PipelineWalk.WalksEnd` | contribute/agonet/simple/context.go:49-55 | No walk goes on for ever: each move brings it to one more context or ends it, just at the end of the chain, and it never comes by more contexts than there are |
| `PipelineWalk.WalksVisitAllThatWerePresent` | contribute/agonet/simple/context.go:49-55 | A walk that has ended visited every context that lay ahead at its start exactly once and in order, whatever was inserted meanwhile, in either direction and from any context, one that is linked in one direction only among them |
| `CopyOnWrite.CopyOnWriteSlice.PerformAll` | ag/ag_ext/copy_on_write.go:82-198 | Whatever operations follow, every slice handed out before keeps its elements |
| `CopyOnWrite.CopyOnWriteSlice.Add` | ag/ag_ext/copy_on_write.go:95-101 | Appends, in place when the shared array has room, and keeps the elements of every slice handed out before |
| `CopyOnWrite.CopyOnWriteSlice.AddIndex` | ag/ag_ext/copy_on_write.go:110-127 | Inserts at the clamped index into a copy |
| `CopyOnWrite.CopyOnWriteSlice.Delete` | ag/ag_ext/copy_on_write.go:148-159 | Removes all equal elements in a copy |
| `CopyOnWrite.CopyOnWriteSlice.DeleteIndex` | ag/ag_ext/copy_on_write.go:168-182 | Removes the element at an index, or does nothing |
| `CopyOnWrite.CopyOnWriteSlice.Set` | ag/ag_ext/copy_on_write.go:184-198 | Replaces the element at an index, or does nothing |
| `PropertySources.MutablePropertySources.AddBefore` | ag/ag_conf/sources_mutable_property_sources.go:125-140 | Error cases and the new list, with the index taken before the removal |
| `PropertySources.MutablePropertySources.AddAfter` | ag/ag_conf/sources_mutable_property_sources.go:142-156 | The same, one place further |
| `PropertySources.MutablePropertySources.AddFirst` | ag/ag_conf/sources_mutable_property_sources.go:111-116 | The source of that name is removed and the new one put first |
| `PropertySources.MutablePropertySources.AddLast` | ag/ag_conf/sources_mutable_property_sources.go:118-123 | The source of that name is removed and the new one put last |
| `PropertySources.MutablePropertySources.ReplaceSource` | ag/ag_conf/sources_mutable_property_sources.go:165-177 | Replaces the source of the same name, or finds none |
| `PropertySources.MutablePropertySources.Remove` | ag/ag_conf/sources_mutable_property_sources.go:158-163 | Removes the source of a name, if there is one |
| `PropertySources.PuttingKeepsTheOthers` | ag/ag_conf/sources_mutable_property_sources.go:111-156 | Names stay unique and the other sources keep their order under AddFirst, AddLast, AddBefore and AddAfter |
| `PropertySources.ReplacingKeepsTheOthers` | ag/ag_conf/sources_mutable_property_sources.go:158-177 | The same for replacing a source and for removing one |
| `PropertySources.AddBeforeIsExact` | ag/ag_conf/sources_mutable_property_sources.go:125-140 | AddBefore puts the source directly before its target if and only if none of its name stood in front of the target; else it lands directly behind |
| `PropertySources.AddAfterIsExact` | ag/ag_conf/sources_mutable_property_sources.go:142-156 | AddAfter puts it directly behind if and only if none of its name stood in front or the target was last |
| `TaskQueue.TasksAreConserved` | ag/ag_log/async/async_worker_group.go:172-278 | At any time of any interleaving, for every strategy: the queue keeps within its capacity; Submit calls returned and under way are the tasks processed, failed, dropped, queued, handled, still to be counted, or lost, the last under an unknown strategy only; and those counted as queued, or about to be, are the tasks processed, failed, in the queue, handled, or taken out for newer ones |
| `TaskQueue.RestingTasksAreConserved` | ag/ag_log/async/async_worker_group.go:172-278 | When no Submit is under way, the calls returned are the tasks processed, failed, dropped, queued or being handled |
| `TaskQueue.SubmitCanBegin` | ag/ag_log/async/async_worker_group.go:66-69 | A submitter that rests can begin a Submit at any time, with any task of the pool or a new one, so the runs are those of all callers |
| `TaskQueue.NoTaskIsReturnedTwice` | ag/ag_log/async/async_worker_group.go:67-78 | No task is in two places, none is put into the pool while it is there, and a task that comes from the pool, or is new, is in use nowhere else |
| `TaskQueue.StepMovesTasks` | ag/ag_log/async/async_worker_group.go:172-278 | Every step moves tasks between their places and makes or forgets none |
| `TaskQueue.StrategyDecides` | ag/ag_log/async/async_worker_group.go:172-215 | What an undisturbed Submit comes to: with room the task is queued; without, drop_new gives it back, drop_old gives back the oldest one and queues it, each counting one task as dropped, and block_wait waits |
| `TaskQueue.TasksLeaveInOrder` | ag/ag_log/async/async_worker_group.go:172-265 | In every run tasks leave the queue in the order in which they were put into it |
| `TaskQueue.OutcomesAreCounted` | ag/ag_log/async/async_worker_group.go:269-278 | Tasks handled without an error are counted as processed, the others as errors |
| `TaskQueue.SomebodyGoesOn` | ag/ag_log/async/async_worker_group.go:172-278 | As long as a Submit is under way or a task is queued, and a worker has not stopped, somebody can go on |
| `TaskQueue.UnknownStrategyLosesAllTasks` | ag/ag_log/async/async_worker_group.go:172-215 | In every run under a strategy other than the three: lost are all tasks whose Submit has looked at the strategy, and none is ever queued, handled, counted or returned to the pool |

## Left out

- ClauseTheorem.SqlKeepsTheMeaning: where a tree repeats a predicate, its condition, no bare OR beside an AND, is sufficient
  only, since repeated predicates can make both readings agree; without repetition it is exact
  (`SqlIsExactOnGuardedTrees`).
- WhereRoundTrip.ParsingUndoesPrinting: groups of one child carry AND, since one child leaves no operator in the text to read back.
- EngineResults.QuotaIsSafe: holds for a positive limit that leaves room for one per loop below the end of the 32-bit range,
  which is exact (`QuotaIsExact`). Without a limit the source counts closings but not openings.
- HandlerExact.CompletenessIsExact: is about all orders in which factories can list their children; with one fixed order a
  blocking path need not be walked, since a depth-first resolution may come to its end another way first.
- ClauseChain.ChainsKeepTheMeaning: does not speak of chains that hand over a condition with both a field and children;
  whether their SQL has the tree's meaning depends on where it comes to stand, exactly as `SqlIsExactOnGuardedTrees` says.
- ClauseCalls.ChainsSayWhatWasWritten: leaves out the same chains; and as for the trees, with repeated predicates the
  condition is sufficient only.
- WhereMixed.MixedListsLoseTheirMeaning: with repeated expressions the condition is sufficient only.
- PlaceholderLenient.CleanResolutionEnds: clean texts are a sufficient condition, as are defaults that are off; other texts
  can end as well.
- ReadThrough.LoaderSucceedsAtMostOnce: that all callers get the one value holds for entries that nobody deletes, overwrites
  or evicts, and writes that are visible when the flight ends; the bound for all runs is `LoadsAreBoundedByLosses`.
- WhereWildcards.ParametersAreConcatenated: leaves out expressions in which a sign stands without a name behind it.
- LengthField.DecimalFieldRoundTrip: white space around a decimal field is the ASCII one; what the source trims beyond it is not
  modelled.
- Sockets, TLS, keep-alive, accept loop, goroutine pools and timers: foreign calls; what is left of them is that an event
  is queued, delayed or refused, and that a deadline passes or not.
- The elastic ring buffer, the buffer pool and singleflight: taken as a byte queue that shows itself in up to two pieces,
  plain allocation, and one running call per key whose result is shared.
- The Shutdown action in a traffic event, which the simple handler never returns, and its check for a connection without a
  channel.
- WriteTo of a connection, and handlers that close their connection inside OnTraffic or OnOpen other than by the returned
  action.
- Property resolvers other than a finite map, and empty delimiters.
- The positions of tokens, and SQL operators or logic names other than those the constants of the source name.
- Pointers shared between trees of the WHERE builder: conditions are values, an open group is found by its depth along
  the last children. `SetRoot`, `AddConditions`, `AndGroup`, `OrGroup` and the index check add nothing new.
- The same factory added twice to the handler builder, middlewares and replaceable handlers.
- The re-entry flag of exception handling in the pipeline and the one-pipeline check of handlers.
- Get, Contains and the range methods of the property sources, and replacing a source under another name.
- Reference counting, Stop and shutdown timing of the worker group, and a queue of capacity zero.
- Reflection binder, configuration readers, code generation, database, message and RPC adapters, load balancer,
  pagination: plumbing or easy members.
