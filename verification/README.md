# Verified model of ssxrver

ssxrver is a network server with one event loop per thread. This project models the parts of it
where correctness is hardest to see, and proves what they are for. Each module follows one
component; methods with loops and mutable state follow the source's own code and are proved
against functions, and the properties are lemmas about those functions.

- `Bytes`: bytes as the C sources see them, and decimal and hexadecimal numerals.
- `JsonString`, `JsonValue`, `JsonParser` (`util/cJSON.c`): the two-pass string printer and
  literal decoder, the tree printer with its allocation arithmetic, the recursive-descent parser,
  and the round trip between them (JSON as in RFC 8259, UTF-8 as in RFC 3629).
- `JsonEscapes`, `JsonGrammar`, `JsonAccepts`: what escapes mean, that every JSON text parses to
  what it denotes, and what else the parser accepts; stated over texts, not over the parser.
- `ListEdits`, `ArrayCache` (`util/cJSON.c`, `util/CJsonObject.cpp`): child lists edited in place
  on the heap, and the wrapper cache over an array's list.
- `EventLoop` (`net/EventLoop.cpp`): the wakeup protocol, as interleaved atomic steps of any
  number of threads; `LoopControl`: quit() and blocking.
- `TwoLockQueue` (`base/ThreadSafeQueue.hpp`): the queue with one lock at each end, as
  interleaved single memory accesses; `TwoLockOperations`: what one push and one pop do among
  the steps of all other threads.
- `AsyncLog` (`base/AsyncLogThread.cpp`): the circulation of log buffers between the front end and
  the back end; `AsyncLogVolume`: how many bytes it takes before it throws any away.
- `HttpText`, `HttpClient`, `HttpResponse` (`http/httpclient_parser.cpp`,
  `http/HttpResponse.cpp`): the whole response automaton by its own state numbers, the response
  printer, and the round trip (header fields as in section 3.2 of RFC 7230).
- `ClientGrammar`, `RequestGrammar` (`http/httpclient_parser.rl`, `http/http11_parser.rl`): the
  grammars the two automata were generated from, and that the automata refine them;
  `ClientChunks`: chunked transfer (section 4.1 of RFC 7230).
- `HttpRequest` (`http/http11_parser.cpp`, `http/HttpParser.cpp`, `http/HttpServer.cpp`): the header
  states of the request automaton, independence of segmentation, and reassembly of bodies;
  `HttpDelivery`: from the bytes of a request to its callback.
- `Buffer`, `TcpConnection` (`net/Buffer.h`, `net/Buffer.cpp`, `net/TcpConnection.cpp`): the byte
  deque and the send and shutdown state machine over it; `ConnectionLife`: what a connection waits
  for, and how it ends.
- `TimerManager` (`net/TimerManager.cpp`, `net/Timer.h`): the timer queue, lazy cancellation and
  the armed deadline; `TimerEffects`: when each callback runs.
- `Epoll` (`net/Epoll.cpp`, `net/Channel.h`): registration of channels and reuse of connections.
- `LogStream` (`base/LogStream.cpp`, `base/LogStream.h`): integers formatted in place.

The kernel, the clock, the user's callbacks and the results of system calls are nondeterministic:
steps, parameters or arguments. A run is any sequence of enabled steps, so a lemma about runs
covers every schedule, every pattern of partial writes and every order of events.

## Where the code does not do the obvious thing

The code is modelled as it is. Where a natural promise fails, a lemma gives the exact condition
under which it holds:

- a surrogate pair decodes correctly only if bit 6 of its high surrogate is clear
  (`JsonString.PairEscapeIsUtf8`), and a negative integer tagged unsigned does not print as itself
  (`JsonParser.IntRoundTripsIff`);
- a functor queued by the loop thread before it calls loop() does not wake it
  (`EventLoop.EntryIsSafeIff`), and a quit() made before that is forgotten
  (`LoopControl.EntryForgetsQuit`);
- in `http/http11_parser.rl` the class of control characters is NUL and DEL alone, since 0 - 31 is
  a difference there, so a field name may hold any other control character but the tab
  (`RequestGrammar.RunIsGrammarRun`);
- an empty reason phrase is reported as a carriage return (`HttpResponse.ReasonParses`), and a
  header line split over two deliveries loses part of its name or all of it
  (`HttpRequest.SplitLineReadsBackIff`);
- a request, with a body or without, is delivered once if and only if its response keeps the
  connection; after one that closes it, every further segment delivers it again
  (`HttpRequest.CalledOnceIff`, `HttpRequest.CallsForRequest`, `HttpRequest.GetDeliveredTwice`);
- a deadline that has passed when it is set is not armed, so a repeating timer with a slow
  callback stops (`TimerManager.ArmedIff`, `TimerManager.RepeatRearmedIff`,
  `TimerManager.SlowCallbackIsNotRearmed`);
- a batch of more than 25 log buffers loses messages, always (`AsyncLog.LogConservation`), which
  takes at least 50,000,000 bytes between two swaps (`AsyncLogVolume.ModerateLogIsKept`);
- the length line of a response loses its line end from 10^13 bytes of body on
  (`HttpResponse.LengthLineFitsIff`);
- negative and very large array indexes, and additions of scalars, can leave the wrapper cache
  wrong (`ArrayCache.IndexedIff`, `ArrayCache.DeleteIff`, `ArrayCache.ReplaceIff`,
  `ArrayCache.ScalarAppendIff`, `ArrayCache.ScalarPrependIff`).

The header comments of `net/TcpConnection.cpp` promise that data handed to send() before shutdown()
is delivered; the model confirms it for in-loop callers, which the comment at
`net/TcpConnection.cpp:176` requires.

## Model

| member | source | states |
|---|---|---|
| JsonString.PrintString | util/cJSON.c:323-389 | The quoted text is allocated by the first pass at exactly the size the second pass fills, NUL included: the array has no room to spare and none is missing |
| JsonString.EscapedLength | util/cJSON.c:332-342 | The first pass counts the length of the escaped text |
| JsonString.StringRoundTrip | util/cJSON.c:217-389 | For every NUL-free string, parsing its printed form gives it back and stops just after the closing quote |
| JsonString.DecodedTextFits | util/cJSON.c:230-316 | For every literal that decodes, the second pass writes no more bytes than the first pass counted |
| JsonString.SizingOverrunIsUndefined | util/cJSON.c:230-234 | The sizing pass runs past its text only on literals the decoding pass does too |
| JsonString.ParseString | util/cJSON.c:217-320 | The two passes over an array of the counted size compute the decoding of the literal, and leave the position after it; an escape may have one to four hex digits, and takes four places in any case |
| JsonString.SingleEscapeIsUtf8 | util/cJSON.c:264-306 | A lone escape of a non-zero, non-surrogate code, in four hex digits or fewer, becomes its UTF-8 encoding (section 3 of RFC 3629) |
| JsonString.PairEscapeIsUtf8 | util/cJSON.c:269-306 | A surrogate pair becomes the UTF-8 encoding of its code point if and only if bit 6 of the high surrogate is clear, because 0x10000 is OR-ed in where it should be added |
| JsonString.PairEscapeGoesWrong | util/cJSON.c:269-306 | The pair D840 DC00, which stands for U+20000, is decoded as U+10000 |
| JsonString.Utf8BytesEncode | util/cJSON.c:282-306 | The bytes written for a scalar value decode, by an independent decoder, to that value |
| JsonEscapes.CodeDecodes | util/cJSON.c:256-306 | However a non-zero code that is no surrogate is spelled after \u, in one to four hex digits of either case, it decodes to bytes that an independent decoder maps to that code, and decoding goes on after the four places |
| JsonEscapes.PairDecodesIff | util/cJSON.c:266-306 | However the halves of a surrogate pair are spelled, they decode to one code point, which is the pair's own if and only if bit 6 of the first half is clear |
| JsonEscapes.StrayDecodes | util/cJSON.c:266-268 | Zero and a second half on its own decode to nothing |
| JsonEscapes.HalfDecodes | util/cJSON.c:269-273 | A first half with no escape after it decodes to nothing |
| JsonEscapes.MismatchDecodes | util/cJSON.c:274-280 | A first half followed by an escape that is no second half decodes to nothing, the second escape included |
| JsonEscapes.NamedDecodes | util/cJSON.c:241-263 | The two-character escapes are the five control characters they name, and any other character for itself |
| JsonEscapes.LiteralParses | util/cJSON.c:217-320 | Every literal made of plain characters, named escapes, codes and sound pairs parses to the bytes those mean, one after the other, and the parser stops after its closing quote |
| JsonEscapes.PrintedAs | util/cJSON.c:349-386 | A byte is printed as it is, or as a backslash and the character that names it |
| JsonEscapes.ControlPrintedAs | util/cJSON.c:349-386 | The other control characters are printed as \u00 and two small hex digits |
| Bytes.HexIsDigit | util/cJSON.c:265-265 | Every hex digit has the value of its place in the table of the sixteen, in either case |
| JsonValue.PrintIntFits | util/cJSON.c:182-212 | Every stored integer and its NUL fit the 22 bytes allocated |
| JsonValue.ArrayFits | util/cJSON.c:586-623 | The length summed over the items, to the byte over what is written for them |
| JsonValue.ObjectFits | util/cJSON.c:736-782 | The length summed over the names and values, to the byte over what is written for them |
| JsonValue.AllocationSuffices | util/cJSON.c:558-784 | For every tree, depth and mode, both composite printers allocate at least the text and its NUL; and exactly how many bytes are left over |
| JsonValue.ComposeArray | util/cJSON.c:558-625 | Filling an array of exactly the summed size yields the array's text, with every write in bounds |
| JsonValue.ComposeObject | util/cJSON.c:689-784 | The same for objects |
| JsonValue.PrintValue | util/cJSON.c:481-514 | The recursive printer produces the layout of the tree at every depth in both modes |
| JsonValue.PrintedItems | util/cJSON.c:600-623 | The text of an array of any two items, to the character: brackets, a comma, and a blank after it in formatted mode only |
| JsonValue.PrintedObject | util/cJSON.c:750-782 | The text of an object with any two members at any depth, to the character: line ends, tabs, colons and commas |
| JsonParser.ParseNumber | util/cJSON.c:117-165 | Sign, leading zero, digits, fraction and exponent are consumed as the source's loops consume them, and the item is an integer or a double accordingly |
| JsonParser.ParseValue | util/cJSON.c:439-478 | The position-based parser agrees with the grammar function that the round trip is about, on every text |
| JsonParser.ParseArray | util/cJSON.c:517-555 | The same for arrays, the loop over items included |
| JsonParser.ParseObject | util/cJSON.c:628-686 | The same for objects |
| JsonParser.Parse | util/cJSON.c:413-427 | The same from the start of the text |
| JsonParser.IntRoundTripsIff | util/cJSON.c:182-212 | An integer reads back from its printed form if and only if it is not a negative value tagged unsigned |
| JsonParser.NegativeUnsignedGoesWrong | util/cJSON.c:182-212 | -1 tagged unsigned is printed as 4294967295 and reads back as that |
| JsonParser.RoundTrip | util/cJSON.c:439-784 | At any depth, in either mode and before any text that cannot extend a number, the printed form of a tree parses back to the tree and leaves that text |
| JsonParser.ParseUndoesPrint | util/cJSON.c:413-784 | Parsing the output of either print mode gives back the same tree: keys, order and stored values |
| JsonGrammar.TextParses | util/cJSON.c:117-686 | Every JSON text of the grammar of RFC 8259, with any blanks, numerals and escapes it allows and blanks in front, parses to a value it denotes, and the parser stops right after it |
| JsonGrammar.NumberParses | util/cJSON.c:117-164 | Every numeral of that grammar is read to its end, as its value: an integer if nothing scales it, else its digits and its power of ten |
| JsonAccepts.TextAccepted | util/cJSON.c:117-686 | The converse: whatever is taken for a value has the shape of a JSON text, its brackets, colons and commas in place, and the value fits it; exactly which numerals beyond the grammar are taken is part of the shape |
| ListEdits.ItemList.AddItemToArray | util/cJSON.c:830-846 | Appending relinks the heap so that the list is the old sequence with the item at its end, and stays well formed; no name changes |
| ListEdits.ItemList.AddItemToArrayHead | util/cJSON.c:847-864 | The same at the front |
| ListEdits.ItemList.AddItemToObject | util/cJSON.c:865-873 | The item takes the name and goes to the end of the list; the others keep theirs |
| ListEdits.ItemList.DetachItemFromArray | util/cJSON.c:884-899 | Exactly the node at the index leaves the sequence, with its links cleared; a negative index takes the head, one past the end takes nothing; no name changes |
| ListEdits.ItemList.ReplaceItemInArray | util/cJSON.c:920-937 | Exactly the node at the index is exchanged; no name changes |
| ListEdits.ItemList.GetObjectItem | util/cJSON.c:802-808 | The first item whose name is equal ignoring case, or none |
| ListEdits.ItemList.DetachItemFromObject | util/cJSON.c:904-913 | The first item of the name leaves the list, or nothing changes; no name changes |
| ListEdits.ItemList.ReplaceItemInObject | util/cJSON.c:938-950 | The first item of the name is exchanged for the new one, which takes the name; the others keep theirs |
| ListEdits.ItemList.GetArraySize | util/cJSON.c:787-794 | The number of nodes |
| ListEdits.SameNameIff | util/cJSON.c:48-59 | Two names are the same exactly if they agree at every place but for the case of letters |
| ListEdits.EditsAgree | util/cJSON.c:787-937 | Taking, exchanging and looking up at an index agree with each other: what was exchanged is found there and nowhere else, what was added and taken again leaves the list as it was, a negative index means the head |
| ArrayCache.IndexedIff | util/CJsonObject.cpp:242-280 | A look-up caches the right item if and only if the index fits an int, was cached, or the array is empty |
| ArrayCache.ScalarAppendIff | util/CJsonObject.cpp:2225-2602 | Adding a scalar keeps the cache right if and only if the index past the end was never looked up |
| ArrayCache.ScalarAppendGoesWrong | util/CJsonObject.cpp:2267-2307 | An empty array looked up at 0 and then given a scalar: the cache still says there is nothing at 0 |
| ArrayCache.ScalarPrependIff | util/CJsonObject.cpp:2657-3034 | Adding a scalar in front keeps the cache right if and only if nothing up to the old end was looked up |
| ArrayCache.DeleteIff | util/CJsonObject.cpp:3036-3076 | Deleting keeps the cache right if and only if the index is not negative, or the array is empty, or no wrapper refers to an item |
| ArrayCache.DeleteGoesWrong | util/CJsonObject.cpp:3036-3076 | Deleting at -1 removes the head and leaves its wrapper in the cache |
| ArrayCache.ReplaceIff | util/CJsonObject.cpp:3078-3518 | Replacing keeps the cache right if and only if the index is not negative, or the array is empty, or the head has no wrapper |
| ArrayCache.ReplaceGoesWrong | util/CJsonObject.cpp:3078-3165 | Replacing at -1 exchanges the head and leaves the old one's wrapper in the cache |
| ArrayCache.CacheAgrees | util/CJsonObject.cpp:242-3518 | Over any sequence of look-ups, object additions at either end, deletions and replacements with ordinary indexes, every cached wrapper refers to the node now at its index, or to nothing past the end |
| ArrayCache.WrapperStays | util/CJsonObject.cpp:242-3518 | And no more is forgotten than has to be: over any such sequence that never exchanges an item nor moves it, its wrapper stays the one that was handed out |
| ArrayCache.JsonArray.Lookup | util/CJsonObject.cpp:242-280 | operator[] on the heap list, cached or not, and on data that is no array |
| ArrayCache.JsonArray.EraseFrom | util/CJsonObject.cpp:2206-2221 | The erasing loop drops exactly the wrappers from the index on |
| ArrayCache.JsonArray.AddObject | util/CJsonObject.cpp:2164-2223 | The list grows by the parsed node and the cache loses the wrappers from its index on; the failing cases change nothing |
| ArrayCache.JsonArray.AddObjectAsFirst | util/CJsonObject.cpp:2604-2655 | The same at the front, where every wrapper goes |
| ArrayCache.JsonArray.AddScalar | util/CJsonObject.cpp:2267-2307 | The list grows by the scalar's node and the cache is not looked at |
| ArrayCache.JsonArray.AddScalarAsFirst | util/CJsonObject.cpp:2699-2739 | The same at the front |
| ArrayCache.JsonArray.DeleteAt | util/CJsonObject.cpp:3036-3076 | The node leaves the list and the wrappers from its unsigned index on go |
| ArrayCache.JsonArray.ReplaceObject | util/CJsonObject.cpp:3078-3121 | The node is exchanged and its wrapper goes, unless there is no such node |
| ArrayCache.JsonArray.ReplaceScalar | util/CJsonObject.cpp:3123-3165 | The wrapper goes first, and then the node is exchanged if there is one |
| EventLoop.NoLostWakeup | net/EventLoop.cpp:64-164 | In every interleaving of any number of threads that enters loop() safely, the loop never blocks with a functor queued or quit_ set unless the eventfd is positive or a write of it is coming; and queued functors run once each, in order |
| EventLoop.EntryIsSafeIff | net/EventLoop.cpp:64-73 | Entering loop() can lead to a lost wakeup if and only if something is queued and no wakeup is coming |
| EventLoop.QueueBeforeLoopIsLost | net/EventLoop.cpp:102-111 | The loop thread that queues a functor before calling loop() loses its wakeup: a concrete run |
| EventLoop.QueuedFunctorsRun | net/EventLoop.cpp:142-164 | From a blocked loop whose writers have written, the loop's own steps run everything that was queued |
| EventLoop.StepKeepsInv | net/EventLoop.cpp:64-164 | The protocol's invariant is kept by every atomic step of every thread |
| EventLoop.StepConserves | net/EventLoop.cpp:150-164 | Every functor pushed has run, is in the swapped-out vector or is queued, in that order |
| EventLoop.Loop.PushFunctor | net/EventLoop.cpp:102-111 | The push, and that a wakeup follows exactly for other threads and while functors are called |
| LoopControl.QuitStopsPolling | net/EventLoop.cpp:64-92 | After quit() from any thread, and under any steps of others, the loop polls at most once more in that call of loop(), and not even once unless it was at the poll |
| LoopControl.QuitEndsLoop | net/EventLoop.cpp:64-92 | A blocked loop whose quitter has written comes out of the poll, runs what is queued and leaves loop(), by its own steps |
| LoopControl.EntryForgetsQuit | net/EventLoop.cpp:69-71 | loop() clears quit_ when it is entered, so a quit() before it is lost |
| LoopControl.WakeupsArePaid | net/EventLoop.cpp:134-148 | Over any run, the loop is woken through the eventfd no more often than it was written to |
| LoopControl.QuietLoopBlocks | net/EventLoop.cpp:142-148 | With nothing written since the last read, the eventfd does not wake the loop |
| TwoLockQueue.Linearizable | base/ThreadSafeQueue.hpp:22-106 | At the grain of single memory accesses, for any number of pushers and poppers: what was pushed is what was popped followed by what is on the list, no access meets null, a freed node or a missing value, and each pop that takes a value returns the one its head store removed; which pops take one, the next rows say |
| TwoLockQueue.SawElementIsStable | base/ThreadSafeQueue.hpp:65-106 | Once the holder of the head lock has seen a tail other than the head, it stays so whatever the others do |
| TwoLockOperations.GivesUpIffEmpty | base/ThreadSafeQueue.hpp:76-106 | From any reachable state and under any steps of other threads, a pop is about to report "empty" if and only if the list held no value when the pop read the tail; otherwise its next accesses take the head |
| TwoLockOperations.PopReturnsFirst | base/ThreadSafeQueue.hpp:70-106 | When those accesses are done the pop has returned: nothing if the list was empty when it read the tail, else the first value of that list, which is off the queue |
| TwoLockOperations.EveryPopReadsTail | base/ThreadSafeQueue.hpp:65-106 | Every pop that locks comes to read the tail with its next access, so the above is about every pop |
| TwoLockOperations.PushAppends | base/ThreadSafeQueue.hpp:22-33 | Under any steps of other threads, a push adds its value at the end of the list with its last store, and no other value |
| TwoLockOperations.ReachedStates | base/ThreadSafeQueue.hpp:16-20 | What these results ask of a state holds in every state a run from a new queue reaches |
| TwoLockOperations.PushThenPop | base/ThreadSafeQueue.hpp:22-106 | There is a run that pushes a value and pops it again, by pointer or by reference |
| TwoLockOperations.NoDeadlock | base/ThreadSafeQueue.hpp:22-106 | As long as an operation is under way, a thread in one can move |
| TwoLockOperations.NothingLeaks | base/ThreadSafeQueue.hpp:22-106 | In every reachable state each allocated node is on the list or in the hands of a thread; when no operation is under way there is one node for each value that is still queued, and one more |
| TwoLockQueue.StepKeepsInv | base/ThreadSafeQueue.hpp:22-106 | Every access of every thread is safe and keeps the list, the private nodes and the FIFO equation |
| AsyncLog.AssertsAlwaysHold | base/AsyncLogThread.cpp:65-120 | In every interleaving of appends with the back end, the asserts of threadFunc hold and every buffer it moves from is there |
| AsyncLog.LogConservation | base/AsyncLogThread.cpp:38-120 | With no message longer than a large buffer: the file, the batch, the queued buffers and the current one hold every surviving message whole; what was appended is what survives and what the cuts dropped, put together with both in order; and everything survives if and only if no batch was over 25 buffers when it was looked at |
| AsyncLog.NoMessageTwice | base/AsyncLogThread.cpp:38-120 | No message is kept twice or made up: as multisets, what was appended is what survives and what was dropped |
| AsyncLogVolume.QueuesIffFull | base/AsyncLogThread.cpp:38-53 | An append queues the current buffer exactly when its message does not fit what is left of 4,000,000 bytes, and then starts the next one with the message |
| AsyncLogVolume.QueuedBounded | base/AsyncLogThread.cpp:38-88 | In every interleaving, at most one buffer is queued for each 2,000,000 bytes appended since the last swap, and none while those are fewer than 4,000,000 |
| AsyncLogVolume.ModerateLogIsKept | base/AsyncLogThread.cpp:38-120 | As long as fewer than 50,000,000 bytes come between two swaps and no message is longer than a buffer, nothing is lost: file and buffers hold what was appended, in order and to the byte |
| AsyncLogVolume.RoundFiles | base/AsyncLogThread.cpp:68-123 | A round of the back end writes up to 25 buffers to the file, in order; of more than 25 it writes the first two |
| AsyncLogVolume.BuffersAreMoved | base/AsyncLogThread.cpp:38-123 | Buffers are moved and not made: an append makes one only when the current one is full and there is no spare, and after a round both spares are back |
| AsyncLog.StepLog | base/AsyncLogThread.cpp:38-104 | An append adds its message at the end, cutting a batch drops exactly the messages after its first two buffers, nothing else changes the log |
| AsyncLog.EmptyBufferTakesIff | base/LogStream.h:25-40 | A message stays whole in a fresh buffer if and only if it is no longer than the buffer |
| AsyncLog.AsyncLogThread.Append | base/AsyncLogThread.cpp:38-55 | The front end's critical section, with the buffers it moves |
| AsyncLog.AsyncLogThread.SwapBuffers | base/AsyncLogThread.cpp:74-88 | The back end's critical section |
| AsyncLog.AsyncLogThread.RecycleBuffers | base/AsyncLogThread.cpp:101-119 | The spares are refilled from the batch, which is never empty when it is taken from |
| HttpClient.ClientParser.Execute | http/httpclient_parser.cpp:97-4939 | The goto loop computes the run of the 123-state table on every input, and returns -1 exactly for an empty buffer |
| HttpClient.MarksAreInside | http/httpclient_parser.cpp:4918-4939 | The marks never pass the last character read, so the closing checks reject nothing else |
| ClientGrammar.RunIsGrammarRun | http/httpclient_parser.rl:50-156 | Refinement: from each of its states, over any bytes, the generated automaton does what the grammar's alternatives do side by side: the same callbacks and fields in the same order, the same place where it stops, an error exactly where no alternative is left |
| ClientGrammar.EveryArcIsStep | http/httpclient_parser.cpp:120-4917 | Every arc of the 123 states, on every character, is a step of the grammar and runs the actions it asks for |
| ClientGrammar.TokensAre | http/httpclient_parser.rl:118-126 | The characters of names are ASCII less control characters and tspecials |
| ClientChunks.EncodingParses | http/httpclient_parser.rl:143-144 | A header Transfer-Encoding: chunked, in any case of its letters, sets the chunked flag and is reported |
| ClientChunks.ChunkHeaderParses | http/httpclient_parser.rl:94-106 | A chunk header with any size below 2^31 in hex digits of either case: the size is reported as written and stored as its value, the last chunk is the one of size zero, and what follows is the chunk |
| ClientChunks.StrtolReads | http/httpclient_parser.cpp:774-774 | Blanks, a sign and a decimal numeral are read as the number, up to the limits of long at both ends |
| HttpResponse.Output.AppendResponse | http/HttpResponse.cpp:7-42 | The piecewise appends add the head and the body to the output |
| HttpResponse.PrintedResponseParses | http/HttpResponse.cpp:7-42 | The client automaton, run over the printer's output for any file-less response, finishes at the body having reported status, reason, every header once and in order, the close flag and, on keep-alive, the length |
| HttpResponse.HeaderParses | http/httpclient_parser.cpp:787-1013 | A header line with any token name that is none of the three special ones is reported once, with exactly its name and its value less leading blanks |
| HttpResponse.NextLetter | http/httpclient_parser.cpp:1015-1800 | The name states are the keyword prefixes: reading one more letter leads to the state of the longer prefix |
| HttpResponse.LengthReadsBackIff | http/httpclient_parser.cpp:771-786 | content_len is the body's length if and only if the length fits an int |
| HttpResponse.LengthLineFitsIff | http/HttpResponse.cpp:9-28 | The length line is written whole if and only if the body is shorter than 10^13 bytes; a longer one loses its LF |
| HttpResponse.ReasonParses | http/httpclient_parser.cpp:699-735 | A reason comes back as it is; an empty one comes back as the CR of its line end |
| HttpResponse.HeaderReadsBackIff | http/httpclient_parser.cpp:913-990 | A header line is reported as it is if and only if its value is empty or does not start with a blank |
| HttpRequest.HeadersParse | http/http11_parser.cpp:421-799 | A printed header block calls http_field once for each pair, in order, with exactly those slices, and ends in state 348 just past the last LF |
| RequestGrammar.RunIsGrammarRun | http/http11_parser.rl:234-246 | Refinement: the header states of the generated automaton are a run of the header grammar, over any bytes: the same callbacks, the same end, an error exactly where the grammar has no alternative |
| RequestGrammar.HeaderArcIsStep | http/http11_parser.cpp:421-799 | Every arc of those states, on every character, is a step of that grammar with its actions |
| HttpRequest.BadValueStops | http/http11_parser.cpp:552-594 | A value with NUL or DEL stops the automaton in its error state on the first of them, with nothing reported |
| HttpRequest.SplitLineReadsBackIff | http/http11_parser.cpp:89-106 | A header line that arrives in two segments is reported as it is if and only if the split leaves the line, up to its CR, in one piece |
| HttpRequest.SplitGoesWrong | http/http11_parser.cpp:89-106 | A concrete header line, split inside its name, is reported with only the rest of that name |
| HttpRequest.SegmentationIndependent | http/HttpParser.cpp:129-138 | Any split of a byte stream leaves the automaton in the same state with the same bytes unconsumed as the whole stream, whatever the other states of the automaton do |
| HttpRequest.TrackSplits | http/http11_parser.cpp:9577-9603 | A run over two parts is the run over the first, continued over the second only if the first did not stop it |
| HttpRequest.HttpConnection.ParserExecute | http/http11_parser.cpp:89-106 | The goto loop with its entry and exit bookkeeping computes the run; an empty buffer changes nothing |
| HttpRequest.HttpConnection.Execute | http/HttpParser.cpp:129-138 | The wrapper runs only an unfinished parser and removes what was consumed |
| HttpRequest.HttpConnection.OnMessage | http/HttpServer.cpp:49-79 | A segment is parsed, answered with 400 when the automaton is in its error state or the method or version was refused, added to the body or delivered, as the source does |
| HttpRequest.BodyReassembles | http/HttpServer.cpp:60-79 | However the rest of a request arrives, the segment that completes the body causes the one callback with exactly the first Content-Length bytes; later bytes stay in the input buffer |
| HttpRequest.RequestDelivered | http/HttpServer.cpp:49-101 | The same for a whole request: its head completed by one segment, whatever was pending, and its body in any number of further ones |
| HttpRequest.BodylessRequestDelivered | http/HttpServer.cpp:75-78 | A head that announces no body is delivered by the segment that completes it, and what follows the head stays in the input buffer |
| HttpDelivery.PostIsServed | http/HttpServer.cpp:49-101 | From bytes: if the first header named Content-Length announces n > 0 bytes, then in whatever segments the body comes after the head, nothing is served before its last byte is there, and then the request is served with its headers as sent, exactly those n bytes as its body, and the rest left in the buffer |
| HttpDelivery.PostIsServedAtOnce | http/HttpServer.cpp:49-101 | The same when the body comes with the segment that ends the head |
| HttpDelivery.GetIsServed | http/HttpServer.cpp:75-78 | From bytes: with no header of that name the request is served with an empty body by the segment that ends its head, and what follows stays in the buffer |
| HttpDelivery.AnsweredIff | http/HttpServer.cpp:53-58 | A segment is answered 400 if and only if the automaton is in its error state, or a method or version was refused, once it has been parsed |
| HttpDelivery.RefusedForever | http/HttpParser.cpp:145-149 | After a refusal every segment is answered 400 |
| HttpDelivery.StoppedForever | http/HttpServer.cpp:49-79 | Once the automaton is in its error state nothing more is served, and every segment is answered 400 |
| HttpDelivery.BadHeadIsAnswered | http/HttpServer.cpp:49-79 | From bytes: a head with NUL or DEL in a header value is answered 400 and serves nothing |
| HttpRequest.PipelinedRequestWaits | http/HttpServer.cpp:49-101 | A request already in the input buffer when the one before it is answered is looked at only with the next segment, as if all of it had arrived then |
| HttpRequest.ClosedRequestRepeats | http/HttpServer.cpp:81-101 | After a response that closes the connection, each further segment calls the callback again with the same request, with a body or without |
| HttpRequest.CallsForRequest | http/HttpServer.cpp:49-101 | How often a complete request is delivered, until the next head is complete: once, and once more for each further segment if its response closes the connection |
| HttpRequest.CalledOnceIff | http/HttpServer.cpp:49-101 | A complete request, with a body or without, is delivered exactly once if and only if its response keeps the connection |
| HttpRequest.GetDeliveredTwice | http/HttpServer.cpp:75-101 | A concrete session: a GET whose response closes, then one more byte, and the callback has been called twice with it |
| Buffer.Buffer.MakeSpace | net/Buffer.h:259-274 | Both branches, the overlapping forward copy included, keep the contents and give the room asked for; the kPrepend assert holds |
| Buffer.Buffer.Copy | net/Buffer.h:269-271 | A forward byte copy to a lower place of the same vector moves the bytes unchanged |
| Buffer.Buffer.Append | net/Buffer.h:103-116 | The contents grow by the bytes at the end |
| Buffer.Buffer.Prepend | net/Buffer.h:198-204 | The contents grow by the bytes at the front |
| Buffer.Buffer.Retrieve | net/Buffer.h:65-72 | The contents lose exactly the bytes taken |
| Buffer.Buffer.RetrieveAsString | net/Buffer.h:92-98 | What is returned and what remains are the old contents |
| Buffer.Buffer.ReadFd | net/Buffer.cpp:16-44 | Whatever readv delivers over the two segments is appended; an error changes nothing |
| Buffer.Buffer.ReadInt | net/Buffer.h:147-173 | What is read is the integer whose network bytes the contents start with, and those bytes go |
| Buffer.Buffer.AppendInt | net/Buffer.h:124-145 | The contents grow by the integer's network bytes at the end |
| Buffer.Buffer.PrependInt | net/Buffer.h:175-196 | The same at the front |
| Buffer.NetworkRoundTrip | net/Buffer.h:124-250 | Signed integers of every width read back as they were appended or prepended |
| Buffer.NetworkIsOnto | net/Buffer.h:217-250 | Every group of bytes is the encoding of the integer it reads as |
| Buffer.NetworkOrder | net/Buffer.h:217-250 | The most significant byte comes first, at widths of 1, 2, 4 and 8 bytes |
| Buffer.NetworkExamples | net/Buffer.h:217-250 | Four integers and their bytes |
| TcpConnection.SendStreamConserved | net/TcpConnection.cpp:48-373 | Over every run of sends, partial writes, refusals, shutdowns and closes: wire bytes followed by the output buffer are the accepted sends, write interest is on exactly while the buffer holds something, the write side is shut down at most once and then everything accepted is on the wire |
| TcpConnection.AcceptedIsTheSends | net/TcpConnection.cpp:76-129 | The accepted bytes are the sends made while connected less those that a fatal error refused |
| TcpConnection.ShutdownIsCarriedOut | net/TcpConnection.cpp:288-317 | Once the socket has taken a byte as often as bytes were waiting, everything is written and a requested shutdown has been made |
| ConnectionLife.InterestsFollowState | net/TcpConnection.cpp:244-264 | In every run the channel waits for reads exactly while the connection is open, and for writes exactly while it is open and output waits |
| ConnectionLife.SendGoesOut | net/TcpConnection.cpp:76-129 | A send on an idle connection puts on the wire what the socket takes and keeps the rest, to the byte; one that finds output waiting goes behind it |
| ConnectionLife.ShutdownCompletes | net/TcpConnection.cpp:170-189 | After shutdown() on a connected connection, enough progress puts everything accepted on the wire and shuts the write side down once |
| ConnectionLife.LastSendIsBeforeClosing | net/TcpConnection.cpp:170-207 | From shutdown(), forceClose() or a close on, no run accepts another send until the connection is reset |
| ConnectionLife.DisconnectedIsQuiet | net/TcpConnection.cpp:76-86 | Once disconnected, no run puts anything more on the wire until then |
| ConnectionLife.ForceCloseCloses | net/TcpConnection.cpp:191-207 | A forced close of an open connection closes it with its next functor |
| TcpConnection.StepKeepsInv | net/TcpConnection.cpp:48-373 | The invariant behind these is kept by every operation |
| TcpConnection.Connection.SendBuffer | net/TcpConnection.cpp:48-62 | An in-loop send empties the caller's buffer into the wire and the output buffer |
| TcpConnection.Connection.SendInLoop | net/TcpConnection.cpp:76-129 | The direct write, its errors and the buffering of the rest |
| TcpConnection.Connection.HandleWrite | net/TcpConnection.cpp:288-317 | A partial write, the end of write interest and the delayed shutdown |
| TimerManager.ExpiredExactly | net/TimerManager.cpp:124-132 | getExpired takes every timer due and returns exactly those not cancelled, in (expiration, sequence) order, leaving the later ones in order |
| TimerManager.RequeuedExactly | net/TimerManager.cpp:134-141 | Exactly the batch's repeating timers that are not cancelled go back, one interval after the batch's time, and no other timer changes |
| TimerManager.PurgedExactly | net/TimerManager.cpp:142-149 | Only cancelled timers are dropped from the front |
| TimerManager.KeysAreStable | net/TimerManager.h:21-30 | No timer's key changes while it is in the queue |
| TimerManager.CancelledNeverRuns | net/TimerManager.cpp:87-98 | A timer whose flag is set never runs again, even when a callback of its own batch set it |
| TimerEffects.CancelStops | net/TimerManager.cpp:82-98 | From the moment a timer is cancelled it runs no more, in any run that follows |
| TimerEffects.CancelSparesOthers | net/TimerManager.cpp:87-157 | Taking a batch, running one of it and resetting treat every other timer, its key, flag and run count, as they would have without the cancel |
| TimerEffects.BatchInOrder | net/TimerManager.h:21-30 | Due timers run in the order of expiration, and of two that expire together the one added first does |
| TimerEffects.DueTimersRun | net/TimerManager.cpp:87-98 | When handleRead has been through its batch, every queued timer that was due and is not cancelled has run once more, and no other has |
| TimerEffects.NeverEarly | net/TimerManager.cpp:87-98 | In every run from a new manager, no callback runs before its timer's expiration |
| TimerEffects.FiresIffDue | net/TimerManager.cpp:39-51 | Time wakes the loop exactly when the first timer of the queue is due |
| TimerEffects.AddedTimerRuns | net/TimerManager.cpp:74-132 | From addTimer to the callback: a timer added ahead of time runs once when its time has come, unless it is cancelled |
| TimerEffects.BatchComesBack | net/TimerManager.cpp:134-150 | After a batch, its live repeating timers wait for one interval from the batch's time, its one-shot timers do not wait, and every timer that waited still does |
| TimerManager.TimersAreConserved | net/TimerManager.cpp:87-157 | A one-shot timer runs at most once, and a timer that is not cancelled always waits, is about to run, or (one-shot) has run |
| TimerManager.ArmedIff | net/TimerManager.cpp:32-43 | After each step the timerfd follows the queue's first deadline if and only if the deadline the step sets lies ahead (or is past with an expiration pending) |
| TimerManager.DeadlineTracksQueue | net/TimerManager.cpp:87-150 | Over any run of adds, cancels and expiries whose deadlines lie ahead when they are set, callbacks included, a non-empty queue has the timerfd armed at its first deadline or fired and unread |
| TimerManager.DueTimerFires | net/TimerManager.cpp:87-98 | When the first deadline comes, handleRead is due |
| TimerManager.RepeatRearmedIff | net/TimerManager.cpp:32-150 | In any queue, when a repeating timer of the batch comes first after reset, the timerfd follows it if and only if the batch took less than its interval (or took more and an expiration is pending) |
| TimerManager.SlowBatchIsNotRearmed | net/TimerManager.cpp:32-150 | In any queue, a batch that takes as long as the interval of any live repeating timer in it leaves the timerfd off the first deadline, unless an expiration is pending |
| TimerManager.SlowCallbackIsNotRearmed | net/TimerManager.cpp:134-150 | The concrete run, of a lone repeating timer from a new manager: it is armed again if and only if its callback takes less than its interval |
| TimerManager.Manager.GetExpired | net/TimerManager.cpp:124-132 | The popping loop |
| TimerManager.Manager.AddTimerInLoop | net/TimerManager.cpp:100-122 | Insertion, and arming when the timer comes first |
| TimerManager.Manager.CancelInLoop | net/TimerManager.cpp:152-157 | Only the timer's flag changes |
| TimerManager.Manager.Reset | net/TimerManager.cpp:134-150 | The two loops of reset and the deadline it sets |
| Epoll.KernelMirrorsChannels | net/Epoll.cpp:68-149 | Over every run, the kernel watches exactly the channels whose status is kAdded, for exactly their events; every connection is filed under its descriptor or in the pool and not both; no registration fails |
| Epoll.NewlyActive | net/Epoll.cpp:122-142 | A new descriptor gets a new connection or the last of the pool, which was not in use |
| Epoll.EnableWatches | net/Channel.h:46-46 | enableEvents leaves a channel watched by the kernel for what it had and what was added |
| Epoll.DisableUnwatches | net/Channel.h:47-48 | disableEvents takes away exactly those events, and the registration with the last of them |
| Epoll.RemovedIsReused | net/Epoll.cpp:94-143 | A connection that is removed is the one the next new descriptor gets |
| Epoll.ClearingTwiceRegisters | net/Epoll.cpp:68-90 | Clearing the events of a channel that is not registered registers it, so clearing twice leaves it watched for nothing |
| LogStream.Convert | base/LogStream.cpp:18-38 | Digits of either sign, written backwards and reversed in place, are the decimal text of every integer type's every value |
| LogStream.Reverse | base/LogStream.cpp:34-34 | Reversal in place |
| LogStream.TextReadsBack | base/LogStream.cpp:18-38 | The text parses back to the value |
| LogStream.TextFits | base/LogStream.h:127-127 | No value takes more than 20 characters, so 21 bytes hold it with its NUL |
| LogStream.FixedBuffer.Append | base/LogStream.h:25-40 | What is appended is cut to the room left and nothing is overwritten |
| LogStream.FixedBuffer.FormatInteger | base/LogStream.cpp:61-69 | An integer is written whole, or not at all when fewer than 21 bytes are left |

## Left out

- Floating-point JSON numbers: print_double and the scaling of fractions and exponents; the parser keeps a mantissa and an exponent, and the integer accumulator is a mathematical integer where the source has a long double.
- JSON trees are parsed and printed as values; the heap nodes of `util/cJSON.c` appear in `ListEdits`, and its deallocation and allocation failures do not.
- JsonString.ParseString: an escape that does not start with a hex digit is given no value, since sscanf would skip blanks, take a sign or 0x, or leave the source's variable as it was; nor is a short escape whose four places reach past the closing quote or end inside another escape.
- JsonAccepts.TextAccepted: of a string, and of a key, it says only that the string parser takes it; which literals that parser gives no value is said above.
- ListEdits.ItemList.ReplaceItemInArray: the replaced item is unlinked and not freed.
- ArrayCache.JsonArray.AddScalar: the overloads differ only in the node they create, so they are one method with the node as its parameter.
- The object-key cache of `util/CJsonObject.cpp`, which has the same shape.
- EventLoop.Loop.PushFunctor: the interleaving is over values, one atomic step at a time, and the class has one method for each step; memory ordering weaker than sequential consistency is not modelled.
- TwoLockQueue.Linearizable: the queue is modelled on values, with a map for the heap, because its steps are single memory accesses of different threads; the condition variable's liveness is left out, since notify is issued without the head lock.
- AsyncLog.LogConservation: says what is in memory and in the file at any moment; what is in memory when the back end stops is not written by the source. The file's rolling and flushing are left out.
- HttpClient.ClientParser.Execute: the assertion that a NUL follows the buffer is left out, strtol reads to the end of the buffer, and a header slice that leaves the buffer reads as empty.
- HttpResponse.PrintedResponseParses: for an int status and bodies under 10^13 bytes, which the printer's 32-byte scratch buffer holds; sendfile responses are left out.
- HttpRequest.HeadersParse: the URI, method and version states, and the XML and JSON socket requests, are any function from a state and a character to the next state, and what their callbacks refuse is a predicate; what they extract is left out.
- HttpDelivery.PostIsServed: that the automaton reads the request line up to the headers is a hypothesis, as that part of it is not modelled.
- HttpRequest.RequestDelivered: lexical_cast of a Content-Length value, and the user's decision to close, are parameters.
- Buffer::shrink, Buffer::unwrite, Buffer::swap and the searches for line ends.
- TcpConnection.Connection.SendInLoop: without the sendfile leg and the write-complete callbacks. In runs it is called by an in-loop send(Buffer*); sends and shutdowns queued by other threads, and send(string_view), are left out.
- TimerManager.Manager.AddTimerInLoop: a priority_queue is the sequence it pops, and a timer's destruction is not modelled; the assertion that addTimer makes about its own result is left out.
- Epoll.KernelMirrorsChannels: for the channels of connections; those of the timerfd, the eventfd and the listening socket, and the growth of the event array, are left out.
- LogStream: pointers and floating-point numbers.
- Socket, file and thread wrappers, configuration, MySQL access and the UDP server.
