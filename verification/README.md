# Verified models of the streaming codecs and concurrency protocols

This project models, in Dafny, the parts of the KV cache manager repository whose
correctness is hardest to see by reading: the incremental codecs and the socket and thread
protocols of its in-tree HTTP library (`3rdparty/httplib/httplib.h`), and its own concurrency
and low-level code (the client pool, the periodic loop thread, the crash handler, the chained
hash, and the Redis codec of the integration tests).

`dafny verify dfyconfig.toml` checks everything.

## How the model is built

*Codecs.* Each loop of the source is a method with invariants, proved equal to a function of its
input; the round trips are lemmas about those functions. Objects with fields
(`FormDataParser`, `stream_line_reader`, `SocketStream`, the chunked data sink) are classes with
an abstract value. A socket is a byte sequence whose reads may be short in any pattern, and may
fail when it is not `reliable`; a stream is such a socket, bare or behind the buffered reader, and the
line reader and the chunked reader work on either. Callbacks are predicates on the history of calls.

| file | what it models |
|---|---|
| `Basics.dfy`, `Text.dfy`, `Numerals.dfy`, `Strtoul.dfy` | shared: options, searching in text, positional numerals, strtoul |
| `MultipartSpec.dfy`, `Multipart.dfy`, `MultipartProgress.dfy`, `MultipartRoundTrip.dfy`, `MultipartLimits.dfy`, `MultipartReceive.dfy` | the multipart/form-data parser (five states over a sliding buffer) against its serializer |
| `FormHeaders.dfy`, `MultipartNames.dfy` | what the parser learns from header lines: names, file names, content types |
| `MultipartCuts.dfy`, `MultipartTrips.dfy`, `MultipartEveryCut.dfy`, `MultipartRefusal.dfy` | the same parser on any text: when the cut makes no difference, and refusals |
| `LineReader.dfy`, `ChunkedSpec.dfy`, `Chunked.dfy` | chunked transfer coding: writer and reader |
| `SocketStream.dfy` | the buffered socket reader |
| `Splitting.dfy`, `Joining.dfy`, `Percent.dfy`, `Query.dfy` | splitting, percent codec, query strings |
| `Ranges.dfy`, `RangeData.dfy`, `RangeHeader.dfy` | byte ranges: validation, coalescing, multipart/byteranges, the Range field |
| `Base64.dfy` | base64 with its 32-bit accumulator |
| `ThreadPool.dfy`, `ThreadPoolSafety.dfy`, `ThreadPoolObject.dfy` | the worker pool |
| `SocketOwnership.dfy`, `SocketOwnershipSafety.dfy`, `ClientSocketObject.dfy` | send, nested sends and stop on one client |
| `ClientPool.dfy`, `ClientPoolSafety.dfy`, `ClientPoolGrowth.dfy`, `PoolState.dfy` | the bounded client pool |
| `LoopThread.dfy`, `LoopThreadObject.dfy` | the periodic loop thread |
| `CrashProtocol.dfy`, `CrashExit.dfy`, `CrashEffects.dfy`, `SignalSafePrint.dfy` | the crash handler: safety, how the process ends, what it does before, and its integer printers |
| `Resp.dfy`, `RespReader.dfy` | the Redis serialization protocol |
| `HashUtil.dfy` | the chained 64-bit hash |

*Protocols.* Threads have program counters, each region under a mutex is one step, and a run is
any sequence of enabled steps: spurious wakeups, time-outs, barging, and any interleaving are
included. An invariant is shown for every step and so for every run; progress is shown by a
measure that every step decreases together with the absence of stuck states. Beside each machine a
class gives the regions as methods on the shared fields, tied to the machine's step functions.

## Findings

Where the code does not have the property one would expect, the model keeps the code as it is,
shows a run or an input, and proves when the property does hold:

- A multipart header line at the length limit is accepted or refused depending on where the body is cut
  (`MultipartLimits.AtTheLimit`). Every cut is accepted exactly when every header line is shorter than the limit
  (`MultipartLimits.EveryCutReceived`); in one piece only the first line of each entry matters (`MultipartLimits.WholeReceived`).
- Text behind the final multipart delimiter is dropped when it comes in the same call and parsed as further entries
  when it comes in the next (`MultipartEveryCut.EpilogueAnnounced`). For any text at all, every cut gives what the whole
  gives exactly when the whole meets no bytes behind the final delimiter and no header line that reaches the limit
  in a block it does not refuse anyway (`MultipartEveryCut.CutIndependent`).
- A form name or file name comes back as it was sent exactly when it is field text without a semicolon and an equals
  sign, and a content type exactly when it is a field value (`MultipartNames.ItemLearned`); `a;b` is a name that does
  not (`MultipartNames.SemicolonInName`).
- A multipart delimiter followed by neither a line end nor two dashes is never refused: parse goes on returning true and
  keeps all that comes (`MultipartRefusal.OtherTextWaits`); at a delimiter just these two are recognised.
- A query component decodes back exactly when the two plus-sign flags agree or the text lacks the
  character they disagree on (`Percent.RoundTrip`).
- A parameter multimap comes back whole exactly when it has no empty key and no repeated pair (`Query.WholeRoundTrip`).
- Equal byte ranges are kept apart, so an accepted request may be served with overlapping ranges
  (`Ranges.DuplicatesOverlap`). Results are separate, however equal starts are sorted, exactly when every range that
  occurs twice has the byte before its start covered (`Ranges.SeparationExact`).
- A suffix range longer than the content is refused, although it asks for all of it; no other range that asks for
  bytes is (`Ranges.LongSuffixRefused`).
- A stop of a request in flight is forgotten when a redirect follows it: the nested send resets the flag and
  reconnects (`SocketOwnershipSafety.StopForgotten`); the flag stands exactly until the next send begins (`SocketOwnershipSafety.FlagKept`).
- A job accepted by the worker pool after `shutdown` has set its flag may never run (`ThreadPoolSafety.LateJobLost`).
- A second, concurrent `Stop` of a loop thread returns without waiting (`LoopThread.SecondStopDoesNotWait`).
- The crash handler's exit code names the last signal its owner took, not always the first (`CrashExit.ExitCode`); from
  every initial state a run that begins with one signal ends with the code of any other (`CrashExit.CodeReplaced`). Before
  the exit the first code is certain exactly when no other signal the owner leaves unblocked is the handler's
  (`CrashExit.CodeCertain`). That the process ends does not depend on it (`CrashExit.OwnerExits`).

## Model

| member | source | states |
|---|---|---|
| `Multipart.FormDataParser.StartWith` | 3rdparty/httplib/httplib.h:5941-5951 | true exactly when the text occurs at that place of the unread window |
| `Multipart.FormDataParser.BufFind` | 3rdparty/httplib/httplib.h:5961-5990 | the first occurrence in the window, or the window's size |
| `Multipart.FormDataParser.BufAppend` | 3rdparty/httplib/httplib.h:5992-6010 | sliding and growing the buffer appends the chunk to the window and changes nothing else |
| `Multipart.FormDataParser.BufErase` | 3rdparty/httplib/httplib.h:6012-6012 | drops that many bytes from the front of the window |
| `Multipart.FormDataParser.ParseInitialBoundary` | 3rdparty/httplib/httplib.h:5758-5766 | state 0 refines its step function |
| `Multipart.FormDataParser.ParseHeaders` | 3rdparty/httplib/httplib.h:5777-5856 | the header loop refines `HeaderLoop`: complete lines are taken in order, the empty one announces the entry |
| `Multipart.FormDataParser.EndBody` | 3rdparty/httplib/httplib.h:5862-5868 | the content before the found delimiter is handed out and both are dropped |
| `Multipart.FormDataParser.HandOut` | 3rdparty/httplib/httplib.h:5869-5879 | without a delimiter all but as many bytes as it has are handed out |
| `Multipart.FormDataParser.ParseBody` | 3rdparty/httplib/httplib.h:5857-5881 | state 3 refines its step function in all three cases |
| `Multipart.FormDataParser.ParseDelimiter` | 3rdparty/httplib/httplib.h:5882-5902 | state 4 tells the next entry from the end |
| `Multipart.FormDataParser.Trip` | 3rdparty/httplib/httplib.h:5756-5904 | one trip round the loop is `Iterate` |
| `Multipart.FormDataParser.Parse` | 3rdparty/httplib/httplib.h:5751-5907 | the object goes exactly where `Feed` says, for every chunk and every callback behaviour |
| `MultipartRoundTrip.ItemsAreScript` | 3rdparty/httplib/httplib.h:6055-6095 | the serialized items are delimiters, header blocks and contents in the order the parser expects |
| `MultipartProgress.IterateStage` | 3rdparty/httplib/httplib.h:5756-5904 | one trip round the loop goes from stage to stage of the text, whatever part of the rest has arrived |
| `MultipartRoundTrip.FeedAllStage` | 3rdparty/httplib/httplib.h:5751-5907 | from any reachable stage, any further cut of what is left ends valid with all parts collected |
| `MultipartRoundTrip.RoundTrip` | 3rdparty/httplib/httplib.h:5743-5907 | for every non-empty list of items with well-formed lines and every cut of the serialized body, parsing succeeds, ends valid, and announces exactly the items' lines and whole contents in order; the names, file names and types learned from the lines are the items' own exactly when all are plain |
| `MultipartRoundTrip.PlainReceived` | 3rdparty/httplib/httplib.h:5743-5907 | with the parser's own verdict on header lines, plain items with short lines and delimited contents are received as they are from every cut |
| `FormHeaders.IsFieldContent` | 3rdparty/httplib/httplib.h:2692-2721 | field characters only, no blank at either end |
| `FormHeaders.ParseHeader` | 3rdparty/httplib/httplib.h:4742-4795 | the name and value of a header line, or the refusal |
| `FormHeaders.ParseDispositionParams` | 3rdparty/httplib/httplib.h:5531-5554 | of the parameters with a key the first one is found, whatever is repeated |
| `FormHeaders.SplitParam` | 3rdparty/httplib/httplib.h:5540-5548 | the first piece between equals signs is the key, the last of the others the value |
| `FormHeaders.LearnLine` | 3rdparty/httplib/httplib.h:5787-5849 | what one header line sets in the entry, or its refusal |
| `FormHeaders.AnyCase` | 3rdparty/httplib/httplib.h:5918-5929 | field names are recognised in upper and lower case, and nothing else is |
| `FormHeaders.TokenChars` | 3rdparty/httplib/httplib.h:2667-2670 | the token characters are the visible ones but for the delimiters of RFC 9110 |
| `FormHeaders.FieldChars` | 3rdparty/httplib/httplib.h:2686-2690 | field values hold everything but the control characters other than the tab |
| `MultipartNames.EncodedName` | 3rdparty/httplib/httplib.h:5833-5847 | an encoded file name overrides the plain one, and is refused if it is not UTF-8 or empty |
| `MultipartNames.EncodedParam` | 3rdparty/httplib/httplib.h:5833-5847 | a parameter with an encoded file name is found under its key with its whole value |
| `MultipartNames.ItemLearned` | 3rdparty/httplib/httplib.h:6055-6070 | from the printed lines the parser learns the item's name, file name and type exactly when the names are field text without semicolon and equals sign and the type is a field value |
| `MultipartNames.PlainLines` | 3rdparty/httplib/httplib.h:4742-4795 | the printed lines of a plain item are accepted and hold no line end |
| `MultipartNames.SemicolonInName` | 3rdparty/httplib/httplib.h:5531-5554 | a name that does not come back |
| `MultipartLimits.LongLineRefused` | 3rdparty/httplib/httplib.h:5773-5776 | whichever header line of whichever entry is at or over the limit, some cut of the body is refused |
| `MultipartLimits.EveryCutReceived` | 3rdparty/httplib/httplib.h:5751-5907 | every cut of the body of otherwise well-formed items is received as those items exactly when every header line is shorter than the limit |
| `MultipartLimits.WholeReceived` | 3rdparty/httplib/httplib.h:5773-5851 | a body that arrives in one call is received exactly when the first header line of every entry is within the limit, the only lines tested then |
| `MultipartLimits.AtTheLimit` | 3rdparty/httplib/httplib.h:5773-5776 | with a longest header line of exactly the limit the whole body is received and some cut of it is refused |
| `MultipartCuts.Resume` | 3rdparty/httplib/httplib.h:5751-5907 | whatever part of a text the parser has been given, whoever wrote the text, going on with the rest ends as having had it all at once |
| `MultipartEveryCut.CutIndependent` | 3rdparty/httplib/httplib.h:5751-5907 | for every text, every cut gives the verdict, validity, entries and, unless refused, the state and window that the whole gives, exactly when the whole meets neither a line that reaches the limit in a block not refused anyway nor bytes behind the final delimiter |
| `MultipartEveryCut.EpilogueAnnounced` | 3rdparty/httplib/httplib.h:5882-5902 | for every boundary, a text whose last bytes are dropped if they come with the final delimiter and announced as a further entry if they come later |
| `MultipartRefusal.RefusalEnds` | 3rdparty/httplib/httplib.h:5779-5783 | for any text, cut and callbacks: after a refused call no callback is called, parse has returned false and the parser is not valid |
| `MultipartRefusal.OtherTextWaits` | 3rdparty/httplib/httplib.h:5882-5902 | a delimiter followed by something else is never refused: parse returns true, calls nobody and keeps all that comes |
| `MultipartReceive.FeedPieces` | 3rdparty/httplib/httplib.h:5751-5907 | feeding pieces one by one is `FeedAll` |
| `MultipartReceive.Receive` | 3rdparty/httplib/httplib.h:5739-6017 | a new parser object fed any pieces of a serialized body ends valid and has announced the items' lines and contents, and the items themselves exactly when they are plain |
| `LineReading.LineReader.Append` | 3rdparty/httplib/httplib.h:3094-3105 | fixed and growable buffer together hold the old text and the byte; the assertion on the terminator holds |
| `LineReading.LineReader.Scan` | 3rdparty/httplib/httplib.h:3058-3089 | one trip of the byte loop: still inside a line without CRLF, or what getline promises |
| `LineReading.LineReader.GetLine` | 3rdparty/httplib/httplib.h:3050-3092 | the line is what was taken from the stream; on a reliable stream exactly the line at the front, or the failure for an empty or overlong one |
| `Chunked.FromIToHex` | 3rdparty/httplib/httplib.h:2769-2777 | the hexadecimal numeral without leading zeros |
| `Chunked.ChunkedWriter.Write` | 3rdparty/httplib/httplib.h:5351-5373 | one chunk on the stream for a non-empty write, nothing for an empty one; on failure just the part the stream took, and the failure remembered |
| `Chunked.ChunkedWriter.Done` | 3rdparty/httplib/httplib.h:5377-5423 | the last chunk and the empty line, each as far as the stream takes it, the second attempted even if the first fails |
| `Chunked.WriteAll` | 3rdparty/httplib/httplib.h:5343-5442 | all writes and done put `Encode` of them on the stream |
| `Chunked.ReadContentWithLength` | 3rdparty/httplib/httplib.h:4852-4877 | never more than the length, delivered in order and the rest left; on a reliable stream exactly that many bytes, whatever the short reads |
| `Chunked.SkipTrailers` | 3rdparty/httplib/httplib.h:4993-4995 | the end of the body with or without its empty line, undeclared trailer lines skipped |
| `Chunked.ReadContentChunked` | 3rdparty/httplib/httplib.h:4925-4995 | at most the payload limit is delivered from any stream; on a reliable one the result, the bytes and the rest are those of `Decode` |
| `ChunkedSpec.SizeLine` | 3rdparty/httplib/httplib.h:4942-4949 | strtoul reads a printed size line back |
| `Strtoul.ReadsDigits` | 3rdparty/httplib/httplib.h:4942-4949 | white space, a sign, the prefix 0x and digits read as their number, taken from 2^64 behind a minus sign and cut at the largest |
| `Strtoul.ReadsNothing` | 3rdparty/httplib/httplib.h:4942-4949 | without a digit in its place there is no number |
| `ChunkedSpec.RoundTrip` | 3rdparty/httplib/httplib.h:4925-4995 | decoding what was encoded delivers the concatenation of the writes and leaves exactly what follows |
| `ChunkedSpec.TooLarge` | 3rdparty/httplib/httplib.h:4955-4958 | a chunk passing the limit is refused before any of it is delivered |
| `ChunkedSpec.TrailersSkipped` | 3rdparty/httplib/httplib.h:4993-4995 | undeclared trailer lines within the limit are skipped up to the empty line, and exactly what follows is left |
| `ChunkedSpec.TrailerRefused` | 3rdparty/httplib/httplib.h:4993-4995 | a longer trailer line, or the end of the stream behind one, is an error |
| `ChunkedSpec.NothingAfterLast` | 3rdparty/httplib/httplib.h:4993-4995 | the end of the stream in place of the empty line is no error |
| `Chunked.Transfer` | 3rdparty/httplib/httplib.h:4925-4995 | writer object, socket with arbitrary short reads, bare or behind the buffered reader, and chunked reader together deliver the writes and stop at their end |
| `SocketStreaming.SocketStream.TakeBuffered` | 3rdparty/httplib/httplib.h:7245-7256 | the front of the buffer is copied out and the rest stays |
| `SocketStreaming.SocketStream.Fill` | 3rdparty/httplib/httplib.h:7262-7268 | one receive into the empty buffer moves bytes from the socket without loss |
| `SocketStreaming.SocketStream.Read` | 3rdparty/httplib/httplib.h:7238-7281 | the contract of the bare socket, with buffered and unreceived bytes as its data; handed-out, buffered and unreceived bytes always make up the same whole |
| `SocketStreaming.Stream.Read` | 3rdparty/httplib/httplib.h:808-826 | one contract for the bare socket and the buffered reader, on which the line reader and the chunked reader rest |
| `SocketStreaming.ReadRun` | 3rdparty/httplib/httplib.h:7238-7281 | for any sizes and any receive pattern, what the reads return followed by what is pending is what was pending before |
| `Splitting.TrimRange` | 3rdparty/httplib/httplib.h:2956-2964 | for any positions, both ends move over blanks, perhaps past the piece, and what is left between them is the trimmed piece |
| `Splitting.Split` | 3rdparty/httplib/httplib.h:3001-3024 | for any delimiter, a blank included, the trimmed non-empty pieces between delimiters, in order |
| `Splitting.PiecesOfJoin` | 3rdparty/httplib/httplib.h:3001-3024 | a delimiter-free text before a delimiter is the first piece |
| `Joining.PiecesOfJoined` | 3rdparty/httplib/httplib.h:3001-3024 | splitting undoes joining of pieces without delimiters and blanks |
| `Percent.EncodeQueryComponent` | 3rdparty/httplib/httplib.h:6827-6877 | the loop computes `Encode` |
| `Percent.KeptExactly` | 3rdparty/httplib/httplib.h:6832-6875 | the characters left as they are are those of a query in RFC 3986, but for the ones that part it or stand for a space |
| `Percent.DecodeQueryComponent` | 3rdparty/httplib/httplib.h:6879-6901 | the loop with its skips computes `Decode`, malformed escapes included |
| `Percent.EscapeReads` | 3rdparty/httplib/httplib.h:6884-6890 | two hexadecimal digits in either case stand for the byte they write |
| `Percent.EscapeExactly` | 3rdparty/httplib/httplib.h:6884-6890 | two characters are an escape exactly when strtoul takes both |
| `Numerals.DigitChars` | 3rdparty/httplib/httplib.h:2735-2747 | the decimal digits, and the hexadecimal ones in either case |
| `Percent.HexPairIsStrtoul` | 3rdparty/httplib/httplib.h:6885-6890 | whatever is read as an escape is what strtoul makes of the two characters |
| `Percent.DecodeEncode` | 3rdparty/httplib/httplib.h:6827-6901 | what decoding makes of encoded text, for all four combinations of the plus-sign flags |
| `Percent.RoundTrip` | 3rdparty/httplib/httplib.h:6827-6901 | decode after encode is the identity on all byte strings exactly when the flags agree or the disputed character is absent |
| `Percent.EncodedPlain` | 3rdparty/httplib/httplib.h:6827-6877 | no query delimiter and no blank survives encoding |
| `Query.ParamsToQueryStr` | 3rdparty/httplib/httplib.h:5478-5490 | pairs printed in order with ampersands between them |
| `Query.ParseQueryText` | 3rdparty/httplib/httplib.h:5492-5515 | the loop with its cache of pieces computes `Parse` |
| `Query.EmplaceSorted` | 3rdparty/httplib/httplib.h:5511-5513 | emplace keeps key order and adds exactly the pair |
| `Query.ParseSorted` | 3rdparty/httplib/httplib.h:5492-5515 | parsing any text keeps the multimap in key order |
| `Query.SplitsBack` | 3rdparty/httplib/httplib.h:5478-5495 | splitting the printed form gives the printed pairs |
| `Query.OnePiece` | 3rdparty/httplib/httplib.h:5492-5515 | a piece without an equals sign is a key with an empty value |
| `Query.DividedPiece` | 3rdparty/httplib/httplib.h:5492-5515 | a piece is divided at its first equals sign; without a key it adds nothing |
| `Query.RepeatedPiece` | 3rdparty/httplib/httplib.h:5492-5515 | a repeated piece is taken once |
| `Query.SurvivingMeans` | 3rdparty/httplib/httplib.h:5492-5515 | the survivors are the pairs with a key, each once |
| `Query.ParsePrint` | 3rdparty/httplib/httplib.h:5478-5517 | parsing a printed multimap gives its survivors in the same order |
| `Query.WholeRoundTrip` | 3rdparty/httplib/httplib.h:5478-5517 | the whole multimap comes back exactly when it has no empty key and no repeated pair |
| `Ranges.NormalisedAsks` | 3rdparty/httplib/httplib.h:6166-6199 | a range is in bounds once normalised exactly when it is satisfiable, and then holds the bytes it asks for: all, the last ones, those from a position on, or those between two |
| `Ranges.LongSuffixRefused` | 3rdparty/httplib/httplib.h:6176-6199 | a range that asks for bytes is refused exactly when it is a suffix longer than the content |
| `Ranges.CheckRanges` | 3rdparty/httplib/httplib.h:6162-6211 | refused exactly when a range is not satisfiable or more than two share a byte with an earlier one; otherwise each range is left as the bytes it asks for, and on refusal the list is normalised up to the offending range |
| `Ranges.MergeStep` | 3rdparty/httplib/httplib.h:6107-6146 | one trip of the coalescing loop keeps bounds, order, coverage and, while duplicates have covered bytes before them, separation |
| `Ranges.CoalesceRanges` | 3rdparty/httplib/httplib.h:6097-6149 | the merge of some sorted arrangement; for ranges in bounds the results are in bounds and sorted, cover exactly the same bytes, and are separated by uncovered bytes if every duplicate has a covered byte before it |
| `Ranges.RangeError` | 3rdparty/httplib/httplib.h:6151-6218 | refused exactly when not servable, with the list left as the loop had it; otherwise the result covers exactly the bytes asked for and is the coalesced form; other requests untouched |
| `Ranges.DistinctCovered` | 3rdparty/httplib/httplib.h:6131-6142 | a request without equal ranges meets the condition for separation |
| `Ranges.SeparationExact` | 3rdparty/httplib/httplib.h:6097-6149 | every sorted arrangement comes out separated exactly when every range that occurs twice has the byte before its start covered |
| `Ranges.DuplicatesOverlap` | 3rdparty/httplib/httplib.h:6131-6142 | an accepted request whose results overlap |
| `RangeData.OffsetAndLength` | 3rdparty/httplib/httplib.h:6220-6226 | for ranges in bounds the offset and length lie inside the content and describe exactly the range's bytes |
| `RangeData.ProcessRanges` | 3rdparty/httplib/httplib.h:6242-6278 | the tokens in callback order, every slice inside the content |
| `RangeData.RenderAll` | 3rdparty/httplib/httplib.h:6242-6298 | the tokens written out are the parts, each with the bytes of its range, and the closing delimiter |
| `RangeData.MakeData` | 3rdparty/httplib/httplib.h:6280-6298 | the body built is that document |
| `RangeData.DataLength` | 3rdparty/httplib/httplib.h:6300-6319 | the size of the tokens, from the content's length alone |
| `RangeData.AnnouncedLength` | 3rdparty/httplib/httplib.h:6280-6319 | the announced length is the length of the document |
| `RangeData.AnnounceRanges` | 3rdparty/httplib/httplib.h:8318-8333 | without a body: the Content-Length is the length of what any content of that length would be answered with, for no, one or several ranges, and Content-Range is set for one |
| `RangeData.ApplyRanges` | 3rdparty/httplib/httplib.h:8348-8366 | with a body: all of it, the bytes of the one range with its Content-Range, or the document of several |
| `RangeData.ContentRangeReads` | 3rdparty/httplib/httplib.h:6228-6240 | a Content-Range field reads back as the first and last byte of the range and the whole length |
| `RangeData.Serve` | 3rdparty/httplib/httplib.h:8303-8366 | whatever range_error lets through, for any status, meets the assertions of both branches; the ranges served cover exactly the bytes asked for, the announced length is the answer's, and Content-Range names the bytes of the one range, or is absent |
| `RangeHeader.MakeRangeHeader` | 3rdparty/httplib/httplib.h:6912-6929 | the field value for any list |
| `RangeHeader.ParseRangeHeader` | 3rdparty/httplib/httplib.h:5559-5598 | the parser with its flag and its exceptions computes `ParseHeader`; on refusal it leaves the ranges before the first bad piece |
| `RangeHeader.SplitsBack` | 3rdparty/httplib/httplib.h:5569-5571 | splitting and trimming the printed list gives the printed ranges |
| `RangeHeader.AcceptedAreValid` | 3rdparty/httplib/httplib.h:5580-5596 | from any text, accepted ranges are valid and there is at least one |
| `RangeHeader.RoundTrip` | 3rdparty/httplib/httplib.h:6912-6929 | parsing the printed list returns it exactly when it is a non-empty list of valid ranges |
| `Base64.Base64Encode` | 3rdparty/httplib/httplib.h:2813-2840 | the encoder with its wrapping 32-bit accumulator computes the encoding by groups of three |
| `Base64.NextByte` | 3rdparty/httplib/httplib.h:2822-2824 | wrap-around never reaches the two low bytes that are looked at |
| `Base64.LetterIsLookup` | 3rdparty/httplib/httplib.h:2814-2814 | a letter is looked up in the 64-character alphabet |
| `Base64.RoundTrip` | 3rdparty/httplib/httplib.h:2813-2840 | the encoding decodes back to every byte string |
| `ThreadPool.WakeAll` | 3rdparty/httplib/httplib.h:871-871 | notify_all wakes every sleeping worker and no other |
| `ThreadPoolSafety.StepInv` | 3rdparty/httplib/httplib.h:839-920 | every step keeps order, single execution, the limit, no lost wakeup and the leaving discipline |
| `ThreadPoolSafety.Safety` | 3rdparty/httplib/httplib.h:839-920 | in every run jobs are dequeued in order and run once, a non-zero limit holds, and after shutdown has returned all accepted jobs have run unless one came late or there is no worker |
| `ThreadPoolSafety.AcceptedExactly` | 3rdparty/httplib/httplib.h:851-862 | in every run a job is taken in exactly when there is no limit or fewer jobs wait than the limit |
| `ThreadPoolSafety.InternalRunsEnd` | 3rdparty/httplib/httplib.h:883-901 | the pool's own steps come to an end within a bound computed from the state |
| `ThreadPoolSafety.StuckMeansDone` | 3rdparty/httplib/httplib.h:839-920 | a pool that can go no further has run every accepted job, and a called shutdown has returned |
| `ThreadPoolSafety.LateJobLost` | 3rdparty/httplib/httplib.h:851-877 | for any number of workers and any limit a job accepted after the flag can be left behind for good |
| `ThreadPoolObject.JobList.Enqueue` | 3rdparty/httplib/httplib.h:851-862 | accepted exactly when there is room, at the end of the list; the machine's step |
| `ThreadPoolObject.JobList.Take` | 3rdparty/httplib/httplib.h:886-897 | first job, leave, or wait: the machine's step |
| `ThreadPoolObject.JobList.SetShutdown` | 3rdparty/httplib/httplib.h:866-869 | the flag is set: the machine's step |
| `SocketOwnershipSafety.StepInv` | 3rdparty/httplib/httplib.h:8901-9018 | every step keeps: only the mutex owner has activations, well nested, and the count is its requests in flight |
| `SocketOwnershipSafety.CloseIsSafe` | 3rdparty/httplib/httplib.h:8838-8856 | every listed close_socket meets its assertion and no other thread has a request in flight |
| `SocketOwnershipSafety.Safety` | 3rdparty/httplib/httplib.h:8901-9073 | in every run the in-flight count is the owner's nesting depth (less an innermost send not in flight), requests are processed on an open socket, the socket is closed exactly where close_socket is listed and safely, a send is retried exactly once after a closed peer, and all assertions hold |
| `SocketOwnershipSafety.ClosedPeerRetried` | 3rdparty/httplib/httplib.h:8901-8909 | a first try that fails by a closed peer, in its own request or in a redirect to another host, is followed by the second |
| `SocketOwnershipSafety.NestingBound` | 3rdparty/httplib/httplib.h:9111-9116 | sends nest at most once per allowed redirect and authorization |
| `SocketOwnershipSafety.StepsDecrease` | 3rdparty/httplib/httplib.h:9036-9107 | every step inside send brings its end nearer, retries, redirects and authorizations included |
| `SocketOwnershipSafety.OwnerCanStep` | 3rdparty/httplib/httplib.h:8901-9018 | a thread inside send always has a next step |
| `SocketOwnershipSafety.SendEnds` | 3rdparty/httplib/httplib.h:5451-5476 | nested sends terminate, however interleaved with stops |
| `SocketOwnershipSafety.StopHonoured` | 3rdparty/httplib/httplib.h:10473-10494 | with no send beginning after it, a stop of a request in flight has closed the socket when nothing is in flight any more |
| `SocketOwnershipSafety.FlagKept` | 3rdparty/httplib/httplib.h:8915-8917 | the close request stands exactly until the next send begins |
| `SocketOwnershipSafety.StopForgotten` | 3rdparty/httplib/httplib.h:8915-8917 | a run in which a stop is forgotten by a redirect and the socket stays open |
| `ClientSocketObject.ClientSocket.Enter` | 3rdparty/httplib/httplib.h:8912-8979 | the first region of send_ on the fields, its assertions proved; without a start the result is true exactly when a proxy refused the connection |
| `ClientSocketObject.ClientSocket.CloseAfterResponse` | 3rdparty/httplib/httplib.h:9061-9073 | the closing region of handle_request on the fields, as the machine's step |
| `ClientSocketObject.ClientSocket.Leave` | 3rdparty/httplib/httplib.h:8990-9004 | the scope exit on the fields, its assertions proved |
| `ClientSocketObject.ClientSocket.Stop` | 3rdparty/httplib/httplib.h:10473-10494 | stop on the fields, its assertion proved |
| `ClientPoolSafety.StepConserved` | kv_cache_manager/common/client_pool.h:27-50 | every step keeps the created clients the disjoint union of free queue, hands and handles |
| `ClientPoolSafety.StepBounded` | kv_cache_manager/common/client_pool.h:153-166 | every step keeps one grower at a time and the bound on all clients, despite the unlocked first tests |
| `ClientPoolSafety.StepWakes` | kv_cache_manager/common/client_pool.h:27-50 | every step keeps: while a thread sleeps, free clients are at most the woken threads still to test |
| `ClientPoolSafety.Safety` | kv_cache_manager/common/client_pool.h:143-169 | conservation, exclusivity, the size bound and no lost wakeup in every reachable state |
| `ClientPoolSafety.WakeupIsPending` | kv_cache_manager/common/client_pool.h:28-38 | a free client beside a sleeper means a woken thread whose next test takes one |
| `ClientPoolSafety.AllHome` | kv_cache_manager/common/client_pool.h:69-90 | when all handles are gone and no call is under way, all clients are free |
| `ClientPoolGrowth.GrowsAndHandsOut` | kv_cache_manager/common/client_pool.h:146-169 | from every state the invariant allows with room, nothing free and nobody growing or waiting, a call has a client created, listed and handed out |
| `ClientPoolGrowth.NothingOnlyIf` | kv_cache_manager/common/client_pool.h:143-169 | in every run a call comes back with nothing only if a wait timed out and, in a growable pool, its callback failed, the list was full at one of its tests, or another thread took the client it had created |
| `ClientPoolGrowth.GrowsOnlyInNeed` | kv_cache_manager/common/client_pool.h:149-158 | a call has a client created only if it saw none free and room in the list, or had waited in vain |
| `ClientPoolGrowth.LocksOnlyForRoom` | kv_cache_manager/common/client_pool.h:153-154 | the lock for growing is taken only by a call whose test outside it has found room |
| `ClientPoolGrowth.StaticNeverGrows` | kv_cache_manager/common/client_pool.h:111-130 | a static pool has the same clients in every reachable state |
| `ClientPoolGrowth.CallAdvances` | kv_cache_manager/common/client_pool.h:143-169 | every move of a call brings its end nearer, and no step of any thread takes it farther |
| `ClientPoolGrowth.CallEnds` | kv_cache_manager/common/client_pool.h:143-169 | a call that has made the moves it had left, time-outs of its waits counted, holds its result in any run |
| `ClientPoolGrowth.CallCanMove` | kv_cache_manager/common/client_pool.h:143-169 | a call can always move unless another thread holds the lock for growing |
| `ClientPoolGrowth.MovedHandleKeeps` | kv_cache_manager/common/client_pool.h:69-80 | a client moved to another handle survives the first one |
| `PoolStateModel.PoolState.TakeFront` | kv_cache_manager/common/client_pool.h:31-37 | the first free client leaves the queue, or nothing does |
| `PoolStateModel.PoolState.ReleaseClient` | kv_cache_manager/common/client_pool.h:41-50 | the client joins the queue, and the list if new; null is ignored |
| `PoolStateModel.InitializePoolStateWithSize` | kv_cache_manager/common/client_pool.h:95-105 | the clients created up to the first failure, success exactly when there was none |
| `PoolStateModel.InitializedIsInit` | kv_cache_manager/common/client_pool.h:95-105 | with a callback that never repeats itself this is an initial state of the machine |
| `LoopThread.RunInv` | kv_cache_manager/common/loop_thread.cc:52-92 | the invariant of the loop holds in every run |
| `LoopThread.DueStep` | kv_cache_manager/common/loop_thread.cc:46-79 | while a start is due, every step keeps it due and loop steps bring it nearer |
| `LoopThread.DueReachesStart` | kv_cache_manager/common/loop_thread.cc:46-79 | a loop with a start due, by request or by time, is never stuck: by its own steps and the time-out of its wait it reaches one |
| `LoopThread.RunOnceForcesStart` | kv_cache_manager/common/loop_thread.cc:46-92 | after RunOnce at any point of any run the loop function starts again within four loop steps |
| `LoopThread.NeverAmplified` | kv_cache_manager/common/loop_thread.cc:46-92 | in every run the starts of the loop function are at most one plus the calls of RunOnce plus the whole intervals elapsed, in both modes |
| `LoopThread.PeriodForcesStart` | kv_cache_manager/common/loop_thread.cc:52-92 | in every run, once an interval has passed since the last start was decided, or in strict mode since the function returned, the function starts again within two loop steps |
| `LoopThread.NoStartBeforeDue` | kv_cache_manager/common/loop_thread.cc:60-77 | without a request no start is decided before that |
| `LoopThread.SleepsUntilDue` | kv_cache_manager/common/loop_thread.cc:60-63 | until then the loop goes to sleep instead of running on |
| `LoopThread.Counted` | kv_cache_manager/common/loop_thread.cc:46-79 | the starts and requests of the model are the calls of the loop function and of RunOnce in the run |
| `LoopThread.StopHandshake` | kv_cache_manager/common/loop_thread.cc:31-44 | after the flip at most one more start; after that Stop returns none runs and none follows |
| `LoopThread.StopTerminates` | kv_cache_manager/common/loop_thread.cc:31-67 | a stopped loop has exited within four of its steps, so it cannot sleep through a stop, and the joining Stop returns |
| `LoopThread.SecondStopDoesNotWait` | kv_cache_manager/common/loop_thread.cc:34-36 | in every reachable state in which the loop function runs, a Stop after the flipping one returns at once while the function runs and the first call waits |
| `LoopThreadObject.CreateLoopThread` | kv_cache_manager/common/loop_thread.cc:11-29 | a negative interval is refused; otherwise the initial state |
| `LoopThreadObject.LoopObject.RunOnce` | kv_cache_manager/common/loop_thread.cc:46-50 | the machine's RunOnce on the fields |
| `LoopThreadObject.LoopObject.StopRegion` | kv_cache_manager/common/loop_thread.cc:32-39 | the machine's Stop on the fields; only the flipping call joins |
| `LoopThreadObject.LoopObject.Enter` | kv_cache_manager/common/loop_thread.cc:55-77 | the first region up to the wait, as the machine's step |
| `LoopThreadObject.LoopObject.Reenter` | kv_cache_manager/common/loop_thread.cc:64-76 | the first region after the wait, as the machine's step |
| `LoopThreadObject.LoopObject.Update` | kv_cache_manager/common/loop_thread.cc:81-90 | the second region, a pending request kept, as the machine's step |
| `CrashProtocol.StepInv` | kv_cache_manager/common/crash_handler.cc:360-440 | every step keeps the invariant on masks, flags, dispositions and dumps |
| `CrashProtocol.Safety` | kv_cache_manager/common/crash_handler.cc:351-440 | in every interleaving at most one dump starts, the flag's owner never pauses, and the process ends only after the dump is complete |
| `CrashEffects.DumpWhole` | kv_cache_manager/common/crash_handler.cc:380-391 | in every run, once the dump is done and so before the process ends, the stack has been taken once and written once to standard error and, with a log file, to that too, which is then synced |
| `CrashExit.OwnerCanMove` | kv_cache_manager/common/crash_handler.cc:378-440 | the owner always has a move: its next step, or inside the chained handler that handler's return |
| `CrashExit.OwnerAdvances` | kv_cache_manager/common/crash_handler.cc:360-440 | no step of any thread takes the owner farther from the end, and its own moves bring it nearer |
| `CrashExit.OwnerExits` | kv_cache_manager/common/crash_handler.cc:378-440 | in every run with as many moves of the owner as its distance, the return of the chained handler counted as one, the process has ended |
| `CrashExit.TakerExits` | kv_cache_manager/common/crash_handler.cc:369-440 | from any reachable state the thread that has taken the flag ends the process within a fixed number of its moves, whatever the other threads do |
| `CrashExit.ReturnEnds` | kv_cache_manager/common/crash_handler.cc:435-440 | after the chained handler has returned, any run with a step of the owner ends the process: by a default action, or with 128 plus the last signal the owner took, which is the one the handler was called for if none came later |
| `CrashExit.ExitCode` | kv_cache_manager/common/crash_handler.cc:360-440 | in every run that ends by exit there is an owner, and the code is 128 plus the last signal delivered to it while the handler was that signal's disposition |
| `CrashExit.CodeCertain` | kv_cache_manager/common/crash_handler.cc:363-440 | with the owner about to exit for a signal, every run with a step of it ends with that signal's code or by a default action exactly when every other signal outside its mask has another disposition |
| `CrashExit.FallbackReached` | kv_cache_manager/common/crash_handler.cc:360-440 | from every initial state, for every signal with a handler to chain to, a run to the point before the last exit with every crash signal unblocked and still handled here |
| `CrashExit.CodeReplaced` | kv_cache_manager/common/crash_handler.cc:363-440 | from every initial state, a run that begins with one signal and exits with the code of any other |
| `CrashExit.SecondSignalReplacesCode` | kv_cache_manager/common/crash_handler.cc:363-368 | at the point before the last exit, any unblocked signal of the handler's own and one step of the owner replace the number in the code |
| `CrashEffects.OldHandlerCalled` | kv_cache_manager/common/crash_handler.cc:405-427 | in every run a thread is in an old handler only for a signal that has one, with every crash signal unblocked unless it has set its mask itself, and comes to the last exit for such a signal only when that handler has returned |
| `CrashEffects.HandlerCanDie` | kv_cache_manager/common/crash_handler.cc:405-427 | an old handler that restores the default action of any crash signal and raises it ends the process by that signal |
| `CrashExit.NestedCrashEnds` | kv_cache_manager/common/crash_handler.cc:363-368 | after a crash inside the chained handler any run with a step of that thread ends the process, with that signal's code or by a default action |
| `CrashExit.DefaultKills` | kv_cache_manager/common/crash_handler.cc:420-423 | from any reachable state, with a default old action and no further signal to the owner, any run with three moves of the owner ends in death by that signal |
| `SignalSafePrint.Digits` | kv_cache_manager/common/crash_handler.cc:97-102 | the digit loop never fills its scratch buffer early and leaves the reversed numeral |
| `SignalSafePrint.WriteInt` | kv_cache_manager/common/crash_handler.cc:67-90 | the signed decimal for every 64-bit value including the smallest, and nothing else touched |
| `SignalSafePrint.WriteUint` | kv_cache_manager/common/crash_handler.cc:92-107 | the decimal numeral, and nothing else touched |
| `SignalSafePrint.WriteHex` | kv_cache_manager/common/crash_handler.cc:109-127 | the prefixed hexadecimal numeral, and nothing else touched |
| `SignalSafePrint.PrintedForms` | kv_cache_manager/common/crash_handler.cc:92-127 | unsigned forms fit their buffers and determine the number |
| `SignalSafePrint.IntRoundTrip` | kv_cache_manager/common/crash_handler.cc:67-90 | signed forms fit their buffer and determine the number |
| `Resp.Encode` | integration_test/testlib/redis_server.py:99-107 | the command is the printed array of bulk strings |
| `Resp.RoundTrip` | integration_test/testlib/redis_server.py:109-129 | every printed reply tree, however nested, reads back as its meaning and leaves exactly the trailing bytes, unless there is an error in it, which is raised |
| `Resp.OtherPrefix` | integration_test/testlib/redis_server.py:113-129 | an error reply, an unknown prefix and the end of the data raise an exception |
| `Resp.BadNumber` | integration_test/testlib/redis_server.py:115-124 | so does a number line that is no number |
| `Resp.LenientInt` | integration_test/testlib/redis_server.py:115-124 | white space around a number, a sign of either kind and grouped digits are taken as Python takes them |
| `Resp.Underscores` | integration_test/testlib/redis_server.py:115-124 | an underscore groups digits exactly when there are digits on both sides |
| `Resp.CommandRoundTrip` | integration_test/testlib/redis_server.py:99-129 | every argument list, followed by any bytes, reads back as the list of strings and leaves those bytes |
| `RespReading.ReadReplyFrom` | integration_test/testlib/redis_server.py:109-129 | the recursive reader on a stateful file agrees with `ReadReply`, exceptions included |
| `RespReading.ReadListFrom` | integration_test/testlib/redis_server.py:124-128 | the list comprehension reads exactly so many replies or raises |
| `HashUtil.HashIntArray` | kv_cache_manager/common/hash_util.h:17-25 | the loop computes the fold of the step |
| `HashUtil.StepBits` | kv_cache_manager/common/hash_util.h:10-15 | bit by bit, the step flips the state where the sum of hashed value, constant, left shift by 12 and signed right shift by 32 has a one |
| `HashUtil.HashConcat` | kv_cache_manager/common/hash_util.h:17-34 | hashing a concatenation is seeding the second part's hash with the first's |
| `HashUtil.ChainIsPrefixHash` | kv_cache_manager/common/hash_util.h:17-34 | however the values are cut into blocks, each chained hash is the hash of the whole prefix |
| `HashUtil.StepInjective` | kv_cache_manager/common/hash_util.h:10-15 | for a fixed state the step tells any two hashed values apart, modulo 2^64 |
| `HashUtil.LastValueTold` | kv_cache_manager/common/hash_util.h:10-34 | sequences differing only in their last value collide exactly when the hasher does on it |

## Left out

- The map of all headers that `FormDataParser` keeps beside name, file name and type, and decode_path_component: the decoder of an encoded file name is a parameter that never lengthens its text. Of several equal keys a multimap is taken to find the first, as the usual implementation does.
- Declared chunked trailers, and providers that end by writing zero bytes without done(): the reader skips trailer lines, the writer writes none.
- Compression, TLS, DNS, real sockets and real time: a stream is a byte sequence with arbitrary short reads and failures, a clock a number that never decreases.
- `encode_uri`, `encode_path_component` and their decoders: the same pattern as the query codec, with easier members.
- ChunkedSpec.RoundTrip: asks that each write be shorter than ULONG_MAX, as any object in memory is.
- SocketOwnershipSafety.Safety: excludes the destructor and requests a user callback starts on the same client from inside a request; redirects to another host use another client and appear as an arbitrary result and error.
- ThreadPoolSafety.Safety: one call of shutdown, and jobs that do not throw.
- The client pool, worker pool, client, loop thread and crash handler as running threads: they are transition systems on values; the classes beside them give single regions on fields, without aliasing.
- StaticClientPool's and DynamicClientPool's answer before Initialize (no pool state): a constant.
- CrashProtocol.Safety: a fault on a blocked signal, for which the kernel kills the process at once, is not a step; other code changing dispositions is modelled only inside the chained handler; the branch for a signal that is not a crash signal cannot be reached.
- The text of a crash dump (`DumpToFd`, `WriteAll`) and the log file: input and output.
- Resp.RoundTrip: texts are their UTF-8 bytes, so str/bytes conversion and its errors are not modelled; Python's limits on recursion depth and on the length of numerals are not either.
- `HashIntVector`: the same fold as `HashIntArray` over a vector.
- The Get/Post/Put overloads, routing, logging, JSON, protobuf, CUDA and build scripts: wrappers, tables and foreign calls.
- The cache manager's own services (cache manager, index, reclaimer, leader election): their code is not part of this model.
