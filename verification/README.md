# Verified models of the code-runtime core

A Dafny model of the parts of the runtime whose correctness is not local: the DEFLATE engine bundled
into the guest, the values and frames that cross the bridge to the V8 process, the races around the
Python file-system calls and the kernel's poll notifier, the resumable benchmark orchestrator, and
the hand-written JSON printer. The members follow the code's own steps, error cases included; where the
code updates fields, buffers or arrays in loops the model is a class or a method with the same loops,
proved against a specification function, and the promises are theorems about that function or about
every reachable state.

`dafny verify dfyconfig.toml` checks the whole project.

| file | models |
|---|---|
| HuffmanTree.dfy, HuffmanOptimal.dfy, HuffmanLengths.dfy, CanonicalCodes.dfy | `pqdownheap`, `build_tree`, `gen_bitlen`, `gen_codes`, `bi_reverse` |
| DecodeTable.dfy, TableRoom.dfy, InflateTable.dfy | `inflate_table` |
| BitStream.dfy, BitParse.dfy, HuffmanStream.dfy | `send_bits`, `bi_windup`, the `hold`/`bits` accumulator, the symbol look-up of `inflate` |
| BlockBody.dfy, DeflateBlock.dfy | `tr_static_init`, `_tr_tally`, `compress_block`, `build_bl_tree`, `send_all_trees`, `_tr_stored_block`, the three ways of `_tr_flush_block` |
| CodeLengthRle.dfy | `scan_tree`, `send_tree` and the code-length state of `inflate` |
| BlockHeader.dfy | the bits of a block, as sections 3.2.3 to 3.2.7 of RFC 1951 have them |
| InflateBody.dfy, InflateBlock.dfy | the block, header, length and distance states of `inflate` |
| DeflateStream.dfy | whole streams, there and back |
| InflateWindow.dfy | match copying in `inflate` and `inflate_fast` across calls, `updatewindow`, `inflateReset` |
| Crc32.dfy, Adler32.dfy | the two checksums |
| Base64.dfy, BridgeValues.dfy | `base64_encode`, `base64_decode`, `cbor_to_json`, `json_to_cbor` |
| IpcFrames.dfy | the binary frames and the stream they travel in |
| PythonRpc.dfy | the pending slot of Python file-system calls |
| PollNotifier.dfy | the generation counter, mutex and condition variable |
| BenchmarkResume.dfy | the orchestrator and its run-state file |
| JsonPrinter.dfy | the JSON string, list and map printers |
| Bytes.dfy, Common.dfy | what the others share |

The bundled zlib is one minified line, so its rows all cite that line. The names of the original
library (`gen_bitlen`, `updatewindow`, ...) are used for its functions.

## Main results

- The inflater on any input (`InflateBlocks`, `StreamExactly`): fed any bytes, cut anywhere, it reports
  what the bits as a whole say, and it accepts exactly the streams of legible blocks, stored, fixed and
  dynamic (RFC 1951, with what zlib makes of incomplete codes), each with one meaning; no verdict is
  ever revised by more input (`StreamMore`).
- Deflate and inflate end to end (`InflateDeflated`): for any tokens in any number of blocks sent in any
  of the three ways, counting symbols, the trees, the length-limited lengths, the canonical codes, the
  block headers, length and distance codes and the bit buffer on one side, and the inflater, which has
  the bytes and nothing else (`Inflate`), on the other, give back the data.
- On the way: the length limiter ends with Kraft sum exactly 1 (`GenBitLen`); `inflate_table` accepts
  exactly the usable lengths, decodes exactly the code words, and always fits the room of 852 and 592
  entries (`BuildTable`, `RoomEnough`); and the code is a cheapest prefix code until the length limit is
  reached, and gives lighter symbols no shorter words even then (`BuildTree`, `Coding`).
- Inflating is plain LZ77 (`InflateStream`): for any stream, corrupt ones included, and any sequence of
  calls, although older history lives only in a circular window; and the exact condition, on the tokens
  and the sizes of the buffers, for a match to be refused.
- Races: one winner per Python file-system call under every interleaving, with the books of all
  requests, replies and timers (`StepBalanced`, `OneWinner`); no lost wake-up in the poll notifier
  (`NoLostWakeup`, `AnswerExact`).
- Codecs: frames, base64, bridge values, JSON text and code lengths are read back exactly, and where
  a decoder accepts more than the encoder writes, the exact class that survives is given.
- Resumed benchmark runs never repeat or lose a saved stage, however they were cut off
  (`NeverRunAgain`, `FinishedRun`).

## What the proofs brought out

- After `inflateReset` the decoder keeps an allocated window but sets its size to zero, so the next
  stream on the same object can meet a spurious "distance too far back": if and only if some match
  reaches behind the start of a call it is copied in (`InflateStream`, `RefusedAt`; `MatchAfterReset` is
  the shortest case).
- A late Python file-system reply is refused only until the next request takes the slot; then it is
  forwarded after its timeout error (`LateReplyIsForwarded`). `AnswersWhenQuiet` counts the answers a
  call gets, and `AnsweredAtMostOnce` gives a discipline under which it gets one.
- The poll generation saturates, so after u64::MAX notifications wake-ups are lost
  (`SaturationLosesWakeup`); `NoLostWakeup` and `AnswerExact` hold exactly below that.
- A code-length code without any words is not refused by `inflate_table`, and the state that reads with
  it does not look at the mark of an empty entry: it reads a zero length from every bit until the missing
  end of block is noticed (`ReadRuns`).
- The base64 decoder accepts padding anywhere; `ReencodesIffCanonical` says when decoding loses
  nothing. An object that carries the Buffer marker and more is turned into bytes, and the rest of it
  is lost; `ReturnsIffPlain` and `CrossesIffPortable` give the exact classes that survive.

## Model

| member | source | states |
|---|---|---|
| Lz77.ExtendIsMatchCopy | crates/execution/assets/v8-bridge-zlib.js:67 | Copying `len` bytes from `dist` back, overlapping or not, appends bytes each of which equals the byte `dist` positions before it (section 3.2.3 of RFC 1951) |
| Lz77.MatchCopyIsExtend | crates/execution/assets/v8-bridge-zlib.js:67 | That repetition property determines the copy: any extension with it is the LZ77 copy |
| Lz77.ExpandMatchInParts | crates/execution/assets/v8-bridge-zlib.js:67 | A match cut anywhere, as at the end of an output buffer, leads to the same end of the stream as the whole match |
| Lz77.ExpandStoredInParts | crates/execution/assets/v8-bridge-zlib.js:67 | So does a stored block cut anywhere |
| InflateWindow.SplicedRepresents | crates/execution/assets/v8-bridge-zlib.js:67 | Recording a chunk of any length in a circular window of any size leaves exactly the last min(total, wsize) bytes of the history in it |
| InflateWindow.Window.Update | crates/execution/assets/v8-bridge-zlib.js:67 | `updatewindow`: after any call the window stands for the end of the whole history, whatever the chunk and window sizes, with the next position and fill level to match |
| InflateWindow.Window.Reset | crates/execution/assets/v8-bridge-zlib.js:67 | `inflateReset` clears the counters but keeps an allocated window, which is stale from then on |
| InflateWindow.Output.MatchStep | crates/execution/assets/v8-bridge-zlib.js:67 | One pass of the MATCH state appends bytes of the plain LZ77 copy of the whole history, as many as there is room for; it is refused exactly when the distance reaches past the bytes of this call and the window |
| InflateWindow.Output.FastMatch | crates/execution/assets/v8-bridge-zlib.js:67 | The unrolled copy of `inflate_fast`, with its four cases of window wrap, appends the plain LZ77 copy, under the same exact condition |
| InflateWindow.Inflate.Call | crates/execution/assets/v8-bridge-zlib.js:67 | One `inflate` call on any stream, with any room, delivers a further stretch of the plain expansion and records it in the window; with all input at hand how much it writes, what it leaves and whether it refuses a match are those of `Run`, a function of the tokens left, the room and what the window keeps |
| InflateWindow.CallForetold | crates/execution/assets/v8-bridge-zlib.js:67 | What a call writes and leaves, and the first match it refuses, by the places of the tokens: the call for the bytes from a to b stops at the first match between them that reaches too far back, or at b, or with nothing left |
| InflateWindow.ToldNext | crates/execution/assets/v8-bridge-zlib.js:67 | From call to call: while nothing is refused the calls so far have written min(total, room) bytes, and the first refusal of all is the first place where some call would refuse some token |
| InflateWindow.Inflate.Calls | crates/execution/assets/v8-bridge-zlib.js:67 | Over any sequence of calls with buffers of any sizes each chunk fits its buffer, the chunks, joined, are what the history grows by, and what is left still leads to the same end; with all input at hand every buffer is filled before the next is begun, and where the calls stop is told from the tokens and the sizes alone |
| InflateWindow.InflateStream | crates/execution/assets/v8-bridge-zlib.js:67 | Any stream, corrupt ones included, after `inflateReset` and an optional dictionary: what is delivered and what is left are a point of the plain LZ77 expansion, chunk i no larger than buffer i. With all input at hand every buffer is filled until the stream ends or a match is refused, and a match is refused if and only if, for some call that comes to it, its distance exceeds the header's limit, or the bytes from the call's start to it plus those kept of what came before, of which a window allocated before the reset keeps none; the first such place is where the output stops. With a fresh window as large as the limit that is exactly where plain LZ77 stops |
| InflateWindow.RefusalEnds | crates/execution/assets/v8-bridge-zlib.js:67 | With a window at least as large as the limit no match is refused that plain LZ77 would take |
| InflateWindow.MatchAfterReset | crates/execution/assets/v8-bridge-zlib.js:67 | After a reset, a second call's match into the first call's output is accepted if and only if the decoder had not allocated its window before the reset; otherwise the stale window makes it a distance error |
| ShiftRegister.Register.DivideWord | crates/execution/assets/v8-bridge-zlib.js:67 | Feeding the low n bits of a word to a shift register one at a time is n shifts of the register with the word added in |
| ShiftRegister.Register.DivideByTable | crates/execution/assets/v8-bridge-zlib.js:67 | Eight division steps are one table look-up and a shift, for every lawful register |
| ShiftRegister.Register.DivideInjective | crates/execution/assets/v8-bridge-zlib.js:67 | Registers that differ stay different under the same message |
| ShiftRegister.Register.BurstSeparates | crates/execution/assets/v8-bridge-zlib.js:67 | Two different bit strings no longer than the register leave it in different states |
| Crc32.CrcLawful | crates/execution/assets/v8-bridge-zlib.js:67 | The 32-bit register with the reflected polynomial 0xEDB88320 satisfies the laws the division theory needs |
| Crc32.MakeTable | crates/execution/assets/v8-bridge-zlib.js:67 | The table builder fills entry n with eight division steps of n |
| Crc32.TableStep | crates/execution/assets/v8-bridge-zlib.js:67 | One table look-up of the checksum loop divides by the eight bits of the byte |
| Crc32.Update | crates/execution/assets/v8-bridge-zlib.js:67 | The table-driven checksum of any range equals bit-at-a-time polynomial division, for every starting value (section 8 of RFC 1952) |
| Crc32.ChecksumAppend | crates/execution/assets/v8-bridge-zlib.js:67 | A message may be summed in chunks cut anywhere |
| Crc32.BurstDetected | crates/execution/assets/v8-bridge-zlib.js:67 | Messages that differ only within a stretch of at most 32 bits have different checksums, for every starting value |
| Adler32.Adler | crates/execution/assets/v8-bridge-zlib.js:67 | The checksum with the modulo deferred over runs of 2000 bytes equals the per-byte definition in section 8.2 of RFC 1950 |
| Adler32.Run | crates/execution/assets/v8-bridge-zlib.js:67 | Inside a run neither signed 32-bit addition wraps |
| Adler32.ChecksumAppend | crates/execution/assets/v8-bridge-zlib.js:67 | A message may be summed in chunks cut anywhere |
| BitStream.SendFits | crates/execution/assets/v8-bridge-zlib.js:67 | Or-ing a shifted field into the 16-bit buffer puts its bits after those already there |
| BitStream.SendSpills | crates/execution/assets/v8-bridge-zlib.js:67 | A field that overflows the buffer is split into one full 16-bit word and a remainder with no bit lost |
| BitStream.BitWriter.SendBits | crates/execution/assets/v8-bridge-zlib.js:67 | `send_bits` appends exactly the field's bits, least significant first, for widths up to 16, with the valid-bit count in 0..16 |
| BitStream.BitWriter.Windup | crates/execution/assets/v8-bridge-zlib.js:67 | `bi_windup` pads with fewer than eight zero bits to a whole byte |
| BitStream.BitReader.Need | crates/execution/assets/v8-bridge-zlib.js:67 | The `hold`/`bits` accumulator takes whole bytes until enough bits are held or the input ends, and its contents stay the next bits of the input |
| BitStream.BitReader.Take | crates/execution/assets/v8-bridge-zlib.js:67 | Taking n bits returns their value and leaves the bits after them |
| BitStream.SendFields | crates/execution/assets/v8-bridge-zlib.js:67 | Any list of fields goes out as the concatenation of their bits, then fewer than eight zeros |
| BitStream.ReceiveFields | crates/execution/assets/v8-bridge-zlib.js:67 | Reading the same widths back, from input cut into chunks anywhere, returns the values that were sent |
| CanonicalCodes.BiReverse | crates/execution/assets/v8-bridge-zlib.js:67 | `bi_reverse`: sending the result least significant bit first sends the code word most significant bit first |
| CanonicalCodes.CodesRise | crates/execution/assets/v8-bridge-zlib.js:67 | Codes of one length rise with the symbol, by exactly one from each symbol to the next of that length (section 3.2.2 of RFC 1951) |
| CanonicalCodes.CodeInRange | crates/execution/assets/v8-bridge-zlib.js:67 | The codes of one length lie from the first code of that length up to the Kraft sum so far |
| CanonicalCodes.CodeFits | crates/execution/assets/v8-bridge-zlib.js:67 | With Kraft sum at most 1 every code fits its length |
| CanonicalCodes.PrefixFree | crates/execution/assets/v8-bridge-zlib.js:67 | No code word is a prefix of another |
| CanonicalCodes.Complete | crates/execution/assets/v8-bridge-zlib.js:67 | With Kraft sum exactly 1 any 15 bits begin with a code word |
| CanonicalCodes.UniquelyDecodable | crates/execution/assets/v8-bridge-zlib.js:67 | Whatever follows it, a bit string reads as a list of symbols in one way only |
| CanonicalCodes.FirstCodes | crates/execution/assets/v8-bridge-zlib.js:67 | The first loop of `gen_codes` computes the first code of every length |
| CanonicalCodes.GenCodes | crates/execution/assets/v8-bridge-zlib.js:67 | `gen_codes` gives every symbol in use its canonical code, bit-reversed for sending, and touches no length |
| TreeShape.Conservation | crates/execution/assets/v8-bridge-zlib.js:67 | Weights handed down a full binary tree, with a gain or loss on each edge, reach the leaves unchanged in sum |
| TreeShape.ClampedKraft | crates/execution/assets/v8-bridge-zlib.js:67 | Clamping depths at the limit raises the Kraft sum by half a unit for each clamped node |
| TreeShape.BottomLeaves | crates/execution/assets/v8-bridge-zlib.js:67 | When anything was clamped, enough leaves sit at the limit to pay for it |
| HuffmanLengths.ShorterInUse | crates/execution/assets/v8-bridge-zlib.js:67 | While overflow remains there is a shorter length in use, so the search loop of `gen_bitlen` ends |
| HuffmanLengths.MovedPays | crates/execution/assets/v8-bridge-zlib.js:67 | One round of redistribution keeps the number of leaves and pays off two units of overflow |
| HuffmanLengths.Redistribute | crates/execution/assets/v8-bridge-zlib.js:67 | The redistribution loop terminates with the same number of leaves and Kraft sum exactly 1 |
| HuffmanLengths.ClampLengths | crates/execution/assets/v8-bridge-zlib.js:67 | The first loop of `gen_bitlen` gives every node its clamped depth and counts leaves and overflow |
| HuffmanLengths.AssignLengths | crates/execution/assets/v8-bridge-zlib.js:67 | The last loop gives as many leaves each length as were counted, and never a longer code to a node listed before another |
| HuffmanLengths.GenBitLen | crates/execution/assets/v8-bridge-zlib.js:67 | For any full tree with at most 2^s leaves `gen_bitlen` gives each leaf a length in 1..s, with Kraft sum exactly 1; unless some leaf has the limit's length, each has its depth |
| HuffmanLengths.GenTreeCodes | crates/execution/assets/v8-bridge-zlib.js:67 | `gen_bitlen` then `gen_codes`: the leaves, and only they, get a complete prefix code |
| PriorityQueue.DownHeap | crates/execution/assets/v8-bridge-zlib.js:67 | `pqdownheap` sinks one value and restores heap order, losing and adding nothing |
| PriorityQueue.MakeHeap | crates/execution/assets/v8-bridge-zlib.js:67 | Sinking every inner place in turn makes a heap of any queue |
| PriorityQueue.TopIsLeast | crates/execution/assets/v8-bridge-zlib.js:67 | The top of a heap comes before everything in it, by frequency and then by depth |
| PriorityQueue.Remove | crates/execution/assets/v8-bridge-zlib.js:67 | `pqremove` takes out a least node and leaves a heap of the others |
| HuffmanTree.Merge | crates/execution/assets/v8-bridge-zlib.js:67 | Putting two queued trees under a new node keeps the forest: each inner node has two children, each parent is queued or listed before its children, no node twice |
| HuffmanTree.MergeTwo | crates/execution/assets/v8-bridge-zlib.js:67 | One round of `build_tree` merges the two least trees of the queue |
| HuffmanTree.ForestIsTree | crates/execution/assets/v8-bridge-zlib.js:67 | When one tree is left, the list is a full binary tree with the symbols as leaves and every parent before its children |
| HuffmanTree.ForceTwo | crates/execution/assets/v8-bridge-zlib.js:67 | With fewer than two symbols in use, unused ones among 0, 1, 2 are made up so that there are two |
| HuffmanTree.BuildTree | crates/execution/assets/v8-bridge-zlib.js:67 | `build_tree`, whatever the frequencies, lays out such a tree with every symbol in use as a leaf, which is what `gen_bitlen` needs; while the frequencies add up to less than 2^16, no prefix code for the symbols is cheaper |
| HuffmanOptimal.Swap | crates/execution/assets/v8-bridge-zlib.js:67 | In a prefix code, giving the greater length to the lesser weight costs no more |
| HuffmanOptimal.Shorten | crates/execution/assets/v8-bridge-zlib.js:67 | A single longest code word may be cut to the length of the next |
| HuffmanOptimal.Join | crates/execution/assets/v8-bridge-zlib.js:67 | Two longest code words may give way to one a bit shorter, which costs less by their weights |
| HuffmanOptimal.Round | crates/execution/assets/v8-bridge-zlib.js:67 | So any prefix code before the two least weights are merged gives one after it that costs less by those weights |
| HuffmanOptimal.NextRound | crates/execution/assets/v8-bridge-zlib.js:67 | After any number of rounds, from any prefix code for the first weights there is one for the queue that costs less by all that was merged |
| HuffmanOptimal.TreeCost | crates/execution/assets/v8-bridge-zlib.js:67 | The leaves of a full tree, each weighted by its depth, cost exactly the weights merged to make it |
| HuffmanOptimal.CheapestIsGraded | crates/execution/assets/v8-bridge-zlib.js:67 | In a cheapest prefix code a lighter symbol never has a shorter code word |
| HuffmanTree.TreeIsCheapest | crates/execution/assets/v8-bridge-zlib.js:67 | The tree that `build_tree` leaves costs no more than any prefix code for its symbols |
| HuffmanTree.FallsOn | crates/execution/assets/v8-bridge-zlib.js:67 | Each round lists two nodes that weigh no less than those listed before and no more than any still queued |
| DecodeTable.AgreesSplit | crates/execution/assets/v8-bridge-zlib.js:67 | An input starts with a word if and only if its first bits do and the index made of the next bits ends in the rest of the word |
| DecodeTable.FillStep | crates/execution/assets/v8-bridge-zlib.js:67 | Setting every entry whose index ends in a word's bits makes all inputs that start with it look up right and disturbs no earlier word |
| DecodeTable.OpenStep | crates/execution/assets/v8-bridge-zlib.js:67 | So does opening a second table behind a root entry no earlier word goes through |
| InflateTable.BookApart | crates/execution/assets/v8-bridge-zlib.js:67 | No input starts with two code words |
| InflateTable.Neighbours | crates/execution/assets/v8-bridge-zlib.js:67 | The code words behind one root entry are next to each other in the order they are filled in |
| InflateTable.LongerElsewhere | crates/execution/assets/v8-bridge-zlib.js:67 | When the remaining codes of up to a length fill a second table, all longer codes lie behind other root entries |
| InflateTable.SubTableBits | crates/execution/assets/v8-bridge-zlib.js:67 | The size search stops at the longest length or when the remaining codes fill the table |
| InflateTable.IncRevRight | crates/execution/assets/v8-bridge-zlib.js:67 | Setting the highest clear bit and clearing those above it is adding one to a bit-reversed code |
| InflateTable.SpaceLeft | crates/execution/assets/v8-bridge-zlib.js:67 | The left-over code space is negative if and only if the Kraft sum exceeds 1 |
| InflateTable.SortSymbols | crates/execution/assets/v8-bridge-zlib.js:67 | Counting sort lists the symbols in use by length, then by number |
| InflateTable.FillEntries | crates/execution/assets/v8-bridge-zlib.js:67 | The fill loop sets exactly the entries whose index ends in the given bits |
| InflateTable.Build | crates/execution/assets/v8-bridge-zlib.js:67 | The main loop, opening second tables as needed, places every symbol, or runs out of room |
| TableRoom.LeavesGrow | crates/execution/assets/v8-bridge-zlib.js:67 | A second table of 2^b entries whose shortest code takes a bits holds at least 2^a + (b - a) symbols |
| TableRoom.RootEntriesTaken | crates/execution/assets/v8-bridge-zlib.js:67 | The codes longer than the root index leave the others all root entries but half their number |
| TableRoom.SomeShort | crates/execution/assets/v8-bridge-zlib.js:67 | So at least two of 286 lengths are at most 9, and at least three of 30 at most 6 |
| InflateTable.PastTable | crates/execution/assets/v8-bridge-zlib.js:67 | A symbol behind a later root entry comes after all the table before is sure to hold, and is at least as long as that table is deep |
| InflateTable.OpeningFits | crates/execution/assets/v8-bridge-zlib.js:67 | A second table opened within the means of the symbols before it fits the room |
| InflateTable.RoomEnough | crates/execution/assets/v8-bridge-zlib.js:67 | 852 entries are enough for any complete code of 286 symbols behind 9 bits, and 592 for 30 behind 6 |
| InflateTable.BuildTable | crates/execution/assets/v8-bridge-zlib.js:67 | `inflate_table` refuses the lengths if and only if they are neither empty, nor complete, nor (except for the code-length code) a single one-bit code; otherwise every input that starts with a code word is looked up as its symbol and length, every other as none; for the sizes `inflate` asks for, 7 bits, 9 bits with up to 286 symbols and 6 bits with up to 30, the tables always fit the 128, 852 and 592 entries set aside |
| HuffmanStream.ReadSymbol | crates/execution/assets/v8-bridge-zlib.js:67 | The LEN state's two-level look-up, taking input byte by byte, reads exactly the code word at the front; it asks for input or reports a bad code only when no code word is there, and never holds more than 22 bits |
| HuffmanStream.WordIs | crates/execution/assets/v8-bridge-zlib.js:67 | A code word is read as its symbol, whatever bits follow |
| HuffmanStream.WordMore | crates/execution/assets/v8-bridge-zlib.js:67 | What is read, symbol or error, stays so whatever further bits come |
| HuffmanStream.AwaitSymbol | crates/execution/assets/v8-bridge-zlib.js:67 | Supplied with chunks as it asks for them, the reader reports what the whole input says: the symbol at the front, an error where the code has a gap, or that the input has ended |
| HuffmanStream.SendSymbols | crates/execution/assets/v8-bridge-zlib.js:67 | Symbols sent with the tree's codes go out as their code words, then fewer than eight zero bits |
| HuffmanStream.ReadSymbols | crates/execution/assets/v8-bridge-zlib.js:67 | From input cut into chunks anywhere the symbols read, or the error, are those of the bits as a whole |
| HuffmanStream.SendWithOwnCode | crates/execution/assets/v8-bridge-zlib.js:67 | `build_tree`, `gen_bitlen`, `gen_codes` and `send_bits`: every symbol with a frequency has a word of a code without gaps, and the bytes are the words of the symbols, then fewer than eight bits |
| HuffmanStream.ReceiveSymbols | crates/execution/assets/v8-bridge-zlib.js:67 | From the lengths and the bytes alone, cut anywhere: lengths that make no code are refused, and otherwise the symbols are those the bits spell |
| HuffmanStream.Transmit | crates/execution/assets/v8-bridge-zlib.js:67 | One after the other, for every choice of frequencies of up to 286 symbols, every message and every chunking: the bytes in between begin with the words of the message, and the message comes back |
| LengthCodes.LengthTables | crates/execution/assets/v8-bridge-zlib.js:67 | `tr_static_init` numbers the match lengths so that each length but the last belongs to the one code whose range of extra bits covers it; 258 has its own code |
| LengthCodes.DistanceTables | crates/execution/assets/v8-bridge-zlib.js:67 | The 512-entry distance table, filled in two loops, gives every distance up to 32768 the one code whose range covers it |
| LengthCodes.LengthBases | crates/execution/assets/v8-bridge-zlib.js:67 | The inflater's base lengths are the sums of the ranges of the extra bits before them |
| LengthCodes.DistanceBases | crates/execution/assets/v8-bridge-zlib.js:67 | So are its base distances |
| BlockBody.CodeTokenMeans | crates/execution/assets/v8-bridge-zlib.js:67 | For every match of 3 to 258 bytes from 1 to 32768 back, the symbols and extra bits `compress_block` picks are in range and mean the same length and distance to the inflater |
| BlockBody.Tally | crates/execution/assets/v8-bridge-zlib.js:67 | `init_block` and `_tr_tally` leave each symbol's frequency the exact number of times the block needs it, the end of the block once more |
| BlockBody.SendBody | crates/execution/assets/v8-bridge-zlib.js:67 | `compress_block` appends the code words and extra bits of the tokens, then the end of the block, to what was sent before |
| BitParse.AwaitNumber | crates/execution/assets/v8-bridge-zlib.js:67 | A field of n bits is taken from input cut anywhere as the number the bits say, or the input is reported to end |
| InflateBody.ReadDistance | crates/execution/assets/v8-bridge-zlib.js:67 | DIST and DISTEXT on any bits: the distance they say, or a bad code, or more input needed; the two symbols of the fixed code without meaning are refused |
| InflateBody.ReadItem | crates/execution/assets/v8-bridge-zlib.js:67 | LEN on any bits: a literal, the end of the block or a match with its length and distance |
| InflateBody.ReadBody | crates/execution/assets/v8-bridge-zlib.js:67 | The tokens of a block up to its end, from any bits cut anywhere: exactly what the bits say, error and lack of input included |
| InflateBody.BodyIs | crates/execution/assets/v8-bridge-zlib.js:67 | The bits `compress_block` sends are read as the tokens they were sent for, and not a bit further |
| InflateBody.BodyWas | crates/execution/assets/v8-bridge-zlib.js:67 | Conversely any bits read as tokens are the bits of some symbols and extra bits that mean them |
| InflateBody.BodyMore | crates/execution/assets/v8-bridge-zlib.js:67 | No verdict on a block's body is revised by more input |
| DeflateBlock.Coding | crates/execution/assets/v8-bridge-zlib.js:67 | Every symbol with a frequency gets a code word of a complete code of at most s bits, and the symbols weighed are exactly those that got one, each once; while the frequencies add up to less than 2^16 a lighter symbol never gets a shorter word, also when the limit was reached, and while no word has all s bits no prefix code for those symbols is cheaper |
| DeflateBlock.BlCodes | crates/execution/assets/v8-bridge-zlib.js:67 | `max_blindex`: just enough lengths of the code-length code are sent, and never fewer than the four the header can count from |
| DeflateBlock.SomePlain | crates/execution/assets/v8-bridge-zlib.js:67 | Some code length of a block is always sent as itself, not as a run |
| DeflateBlock.SendTrees | crates/execution/assets/v8-bridge-zlib.js:67 | `send_all_trees` appends the three counts, the lengths of the code-length code in their order, and the run-length form of both codes |
| DeflateBlock.SendDynamic | crates/execution/assets/v8-bridge-zlib.js:67 | A block with its own codes: symbols counted, three codes built, header and body appended; it is legible and stands for the tokens |
| BlockHeader.FixedFull | crates/execution/assets/v8-bridge-zlib.js:67 | The fixed codes of section 3.2.6 of RFC 1951 leave no gap |
| DeflateBlock.StaticLengths | crates/execution/assets/v8-bridge-zlib.js:67 | The literal tree of `tr_static_init` carries the canonical codes of the fixed lengths |
| DeflateBlock.StaticDistances | crates/execution/assets/v8-bridge-zlib.js:67 | So does its distance tree, whose codes are the reversed numbers |
| DeflateBlock.SendFixed | crates/execution/assets/v8-bridge-zlib.js:67 | A block with the fixed codes: every token has one, and the 30 distances the deflater knows are coded as the inflater's 32 are |
| DeflateBlock.SendRaw | crates/execution/assets/v8-bridge-zlib.js:67 | `_tr_stored_block`: the bits are filled up to a byte, then length, complement and the bytes as they are |
| DeflateBlock.FlushBlock | crates/execution/assets/v8-bridge-zlib.js:67 | Whichever way `_tr_flush_block` sends a block, the bits appended are those of a legible block that stands for its content |
| InflateBlock.OpenTable | crates/execution/assets/v8-bridge-zlib.js:67 | `inflate_table` as `inflate` calls it: refused if and only if the lengths make no code, never for want of room |
| InflateBlock.ReadBlLengths | crates/execution/assets/v8-bridge-zlib.js:67 | LENLENS on any bits: the lengths are put in their places and the ones not sent are zero |
| InflateBlock.ReadRuns | crates/execution/assets/v8-bridge-zlib.js:67 | CODELENS on any bits, runs stored in place: the lengths the bits say, or a bad repeat, or more input needed; a code-length code without words gives zeros |
| InflateBlock.ReadHeader | crates/execution/assets/v8-bridge-zlib.js:67 | TABLE to the end of CODELENS on any bits: the tables of the two codes the bits describe, or the first of the checks that fails: too many symbols, no code for the lengths, a bad repeat, no end of block, no literal code, no distance code |
| InflateBlock.HeaderIs | crates/execution/assets/v8-bridge-zlib.js:67 | Every header a deflater may send is read as the two codes it describes, and not a bit further |
| InflateBlock.HeaderWas | crates/execution/assets/v8-bridge-zlib.js:67 | Every header that is read is one that may be sent: counts, lengths in their order and runs that spell the two codes |
| InflateBlock.HeaderMore | crates/execution/assets/v8-bridge-zlib.js:67 | No verdict on a header is revised by more input |
| InflateBlock.ReadStoredLength | crates/execution/assets/v8-bridge-zlib.js:67 | STORED: exactly 32 bits are held, so that clearing `hold` loses none; refused if and only if the two halves are not complements |
| InflateBlock.CopyStored | crates/execution/assets/v8-bridge-zlib.js:67 | COPY: the bytes after it, from whatever chunks |
| InflateBlock.ReadBlock | crates/execution/assets/v8-bridge-zlib.js:67 | A block of any of the three kinds, from any bits: its tokens and mark, or the error the bits call for |
| InflateBlock.BlockExactly | crates/execution/assets/v8-bridge-zlib.js:67 | A block is read as certain tokens if and only if the bits are those of a block that stands for them |
| InflateBlock.StreamExactly | crates/execution/assets/v8-bridge-zlib.js:67 | A stream is read as certain tokens if and only if it is a sequence of legible blocks, of which the last and no other says so, that stands for them |
| InflateBlock.StreamMore | crates/execution/assets/v8-bridge-zlib.js:67 | No verdict on a stream is revised by further bytes |
| InflateBlock.InflateBlocks | crates/execution/assets/v8-bridge-zlib.js:67 | `inflate` on any bytes, cut anywhere, reports what the bits as a whole say: the tokens of all blocks, an error, or that the input has ended |
| DeflateStream.DeflateBlocks | crates/execution/assets/v8-bridge-zlib.js:67 | Any number of blocks, each sent in any of the three ways, go out as a stream that stands for their contents, then fewer than eight bits |
| DeflateStream.Inflate | crates/execution/assets/v8-bridge-zlib.js:67 | Any bytes, cut anywhere, with buffers of any sizes: if the bits are a stream, what is delivered is its plain LZ77 expansion, every buffer filled before the next is begun, up to the room or to the match plain LZ77 stops at, which is then refused; if not, the error or lack of input is reported |
| DeflateStream.InflateDeflated | crates/execution/assets/v8-bridge-zlib.js:67 | Tokens that mean `data`, in any number of blocks sent in any way, deflated to bytes and those bytes inflated, deliver `data`, or exactly as much of it as the buffers have room for |
| CodeLengthRle.SendTree | crates/execution/assets/v8-bridge-zlib.js:67 | `send_tree` sends the run-length tokens of the lengths |
| CodeLengthRle.ScanTree | crates/execution/assets/v8-bridge-zlib.js:67 | `scan_tree` counts exactly the symbols `send_tree` sends |
| CodeLengthRle.ReadLengths | crates/execution/assets/v8-bridge-zlib.js:67 | The CODELENS state stores in place what the tokens stand for and reports bad repeats |
| CodeLengthRle.TokensFit | crates/execution/assets/v8-bridge-zlib.js:67 | Every repeat field sent fits its 2, 3 or 7 bits |
| CodeLengthRle.TreeRoundTrip | crates/execution/assets/v8-bridge-zlib.js:67 | For every array of lengths 0..15 expanding the tokens gives the array back, whatever came before and follows |
| CodeLengthRle.HeaderRoundTrip | crates/execution/assets/v8-bridge-zlib.js:67 | The literal and distance lengths, sent one after the other, are read back as one array (section 3.2.7 of RFC 1951) |
| Base64.Base64Encode | crates/execution/src/v8_runtime.rs:527-549 | `base64_encode` computes the encoding |
| Base64.Base64Decode | crates/execution/src/v8_runtime.rs:551-583 | `base64_decode` computes the decoding and refuses short chunks and foreign characters |
| Base64.RoundTrip | crates/execution/src/v8_runtime.rs:527-583 | Decoding inverts encoding for every byte string (section 4 of RFC 4648) |
| Base64.Accepts | crates/execution/src/v8_runtime.rs:551-583 | The decoder accepts exactly the strings of whole chunks over the alphabet and `=`, wherever the `=` stands |
| Base64.EncodingIsCanonical | crates/execution/src/v8_runtime.rs:527-549 | Every encoding has padding only at the end, zero spare bits and four characters for each started chunk |
| Base64.ReencodesIffCanonical | crates/execution/src/v8_runtime.rs:527-583 | An accepted string is the encoding of what it decodes to if and only if it is canonical |
| BridgeValues.ToJsonWellFormed | crates/execution/src/v8_runtime.rs:441-484 | Every CBOR value becomes a JSON tree with 64-bit or finite numbers and ordered, distinct keys |
| BridgeValues.FromPairsGet | crates/execution/src/v8_runtime.rs:466-480 | Of map entries whose keys have the same text the last is kept |
| BridgeValues.SentAgain | crates/execution/src/v8_runtime.rs:441-520 | For every JSON value, sending what arrived sends the same CBOR value |
| BridgeValues.BridgedTwice | crates/execution/src/v8_runtime.rs:441-520 | For every CBOR value (tags, odd keys, duplicates, out-of-range integers, non-finite floats, look-alike markers included) converting to JSON and back twice equals once |
| BridgeValues.ReturnsIffPlain | crates/execution/src/v8_runtime.rs:441-520 | A JSON value comes back from CBOR unchanged if and only if every object carrying the marker is the two-entry object with canonical base64 |
| BridgeValues.CrossesIffPortable | crates/execution/src/v8_runtime.rs:441-520 | A CBOR value crosses unchanged if and only if it has only 64-bit integers, finite floats, no tags, and maps with ordered distinct text keys that are not mistaken for a marker |
| BridgeValues.CarriedUpToOrder | crates/execution/src/v8_runtime.rs:441-520 | With distinct text keys in any order a value arrives as itself with map entries put in key order |
| BridgeValues.OrderedPermutes | crates/execution/src/v8_runtime.rs:441-520 | Putting entries in key order keeps every entry |
| BridgeValues.CborToJson | crates/execution/src/v8_runtime.rs:441-484 | `cbor_to_json`, map filled entry by entry, computes the conversion |
| BridgeValues.JsonToCbor | crates/execution/src/v8_runtime.rs:486-520 | `json_to_cbor` computes the conversion, marker test included |
| IpcFrames.EncodeFrame | crates/execution/src/v8_ipc.rs:113-127 | `encode_frame` writes the length-prefixed body, or refuses a field too long for its length or a body over the limit |
| IpcFrames.FrameBuffer.EncodeBody | crates/execution/src/v8_ipc.rs:277-415 | `encode_body` appends exactly the frame's fields for all twelve kinds |
| IpcFrames.DecodeFrame | crates/execution/src/v8_ipc.rs:130-273 | `decode_frame` with its moving cursor computes the decoding, errors included |
| IpcFrames.CastsAreExact | crates/execution/src/v8_ipc.rs:113-127 | In a frame that passes the size limit the `as u32` casts of inner lengths cut nothing off |
| IpcFrames.FrameRoundTrip | crates/execution/src/v8_ipc.rs:113-415 | Whenever a frame encodes, the bytes after the prefix decode to that frame |
| IpcFrames.NormalForm | crates/execution/src/v8_ipc.rs:130-273 | Whatever bytes within the limit decode, the frame encodes again, no longer than the input, and decodes to itself |
| IpcFrames.ReencodesIffCanonical | crates/execution/src/v8_ipc.rs:130-273 | Decoded and encoded again the bytes are the same if and only if no byte is left over, no unknown flag is set and an authentication carries no session id |
| IpcFrames.StreamRoundTrip | crates/execution/src/v8_runtime.rs:117-138 | Reading the concatenation of any sent frames yields exactly those frames and leaves what follows |
| IpcFrames.EncodingsPrefixFree | crates/execution/src/v8_runtime.rs:117-138 | No encoded frame is a proper prefix of another |
| IpcFrames.Connection.ReceiveFrame | crates/execution/src/v8_runtime.rs:117-132 | `read_frame` takes one frame off the stream, with the same errors |
| IpcFrames.Connection.SendFrame | crates/execution/src/v8_runtime.rs:134-138 | `send_frame` appends the whole encoding or nothing |
| PythonRpc.StepBalanced | crates/execution/src/python.rs:587-605 | Every step of every thread keeps the books: each request is held, cleared, marked or superseded; each accepted reply is forwarded once; each mark is reported once |
| PythonRpc.RunSound | crates/execution/src/python.rs:587-605 | Both the books and the agreement of slot and log hold after every interleaving |
| PythonRpc.OneWinner | crates/execution/src/python.rs:587-605 | Of a request made once, at most one of cleared, timed out and superseded ever happens |
| PythonRpc.RefusedUntilNextRequest | crates/execution/src/python.rs:355-440 | After its timeout a reply to a request made once is refused if and only if no request came since |
| PythonRpc.RefusedOnlyAfterTimeout | crates/execution/src/python.rs:355-440 | A reply is refused only after that request's timeout, with no request since |
| PythonRpc.ForwardedAfterTimeout | crates/execution/src/python.rs:355-440 | A reply is forwarded after its request's timeout only if another request came between |
| PythonRpc.AnswersWhenQuiet | crates/execution/src/python.rs:587-632 | When all threads have run out, a request made once has had 1 answer, minus supersessions, plus replies that missed the slot |
| PythonRpc.LateReplyIsForwarded | crates/execution/src/python.rs:597-604 | A run in which the guest gets both a timeout error and a late reply for one call |
| PythonRpc.AnsweredAtMostOnce | crates/execution/src/python.rs:355-440 | If the host replies only to the latest request, and not after clearing it, a call gets at most one answer |
| PythonRpc.PythonExecution.ClearPending | crates/execution/src/python.rs:587-605 | The slot is emptied only by a reply to the pending id |
| PythonRpc.PythonExecution.Respond | crates/execution/src/python.rs:355-440 | A reply is sent on unless the slot holds that id's timeout |
| PythonRpc.PythonExecution.ExpirePending | crates/execution/src/python.rs:1160-1167 | The timer marks the slot if and only if its own id is still pending, and otherwise leaves it alone |
| PollNotifier.StepInv | crates/kernel/src/poll.rs:127-172 | Every step of every thread keeps the lock exclusive, the generation equal to the saturated number of notifications, and every waiter's bookkeeping |
| PollNotifier.MutualExclusion | crates/kernel/src/poll.rs:127-172 | Two threads are never inside the lock at once |
| PollNotifier.NoLostWakeup | crates/kernel/src/poll.rs:127-172 | Outside the moment between the count and `notify_all`, a parked thread took its snapshot after the last notification, unless it took it at a saturated generation |
| PollNotifier.ParkedPollerIsCurrent | crates/kernel/src/kernel.rs:2213-2240 | With every change announced, a parked poller has evaluated its targets since the last change |
| PollNotifier.AnswerExact | crates/kernel/src/poll.rs:137-172 | On the untimed, zero-timeout and deadline paths alike a call answers true if and only if a notification came between its snapshot and the check, and the snapshot was below u64::MAX |
| PollNotifier.SaturationLosesWakeup | crates/kernel/src/poll.rs:127-131 | A reachable state, past u64::MAX notifications, where a poller sleeps through a change |
| PollNotifier.Notifier.Notify | crates/kernel/src/poll.rs:127-131 | The generation follows the number of notifications until it saturates |
| PollNotifier.Notifier.WaitForChange | crates/kernel/src/poll.rs:137-172 | The three wait loops, with the other threads' notifications as input, answer as stated and otherwise are still parked with nothing missed |
| BenchmarkResume.SanitizedHeld | crates/execution/src/benchmark.rs:1824-1845 | Sanitising keeps exactly the entries the definitions name, the last of duplicates |
| BenchmarkResume.RecordHeld | crates/execution/src/benchmark.rs:1868-1872 | Recording a scenario replaces its entry and keeps the others |
| BenchmarkResume.SavedLoads | crates/execution/src/benchmark.rs:1522-1548 | A saved state loads with the same stages and samples |
| BenchmarkResume.RunGrown | crates/execution/src/benchmark.rs:2005-2052 | From any file contents, over any sequence of runs each cut off anywhere, what is saved stays saved with the same samples |
| BenchmarkResume.NeverRunAgain | crates/execution/src/benchmark.rs:2005-2052 | A stage found in the file is never run again, by this run or any later one |
| BenchmarkResume.SaveKeeps | crates/execution/src/benchmark.rs:2031-2045 | Each save puts its stage in the file |
| BenchmarkResume.FinishedRun | crates/execution/src/benchmark.rs:2005-2052 | A finishing run has resumed plus executed stages equal to one plus the definitions, and its report is the definitions in order with the saved samples |
| BenchmarkResume.Orchestrator.Orchestrate | crates/execution/src/benchmark.rs:2005-2052 | `orchestrate_javascript_benchmark_report`, saves and the making of the directory that fail included: it runs and saves the missing stages in order up to the first that fails or cannot be saved, succeeds if and only if none does, records what the closures gave, and leaves the file alone when nothing ran |
| JsonPrinter.StringBack | crates/execution/src/common.rs:53-82 | A printed string, escapes and surrogate pairs included, is read back as itself by the grammar of section 7 of RFC 8259, leaving what follows |
| JsonPrinter.ArrayBack | crates/execution/src/common.rs:23-35 | Every list of strings is read back from its printed form |
| JsonPrinter.MapBack | crates/execution/src/common.rs:37-51 | Every map is read back, in its order, from its printed form |
| JsonPrinter.ArraysPrefixFree | crates/execution/src/common.rs:23-35 | The list printer is injective, and no printed list is a proper prefix of another |
| JsonPrinter.MapsPrefixFree | crates/execution/src/common.rs:37-51 | So is the map printer |
| JsonPrinter.PrintedClean | crates/execution/src/common.rs:53-82 | Printed text has no control character and nothing outside the basic plane |
| JsonPrinter.EncodeJsonString | crates/execution/src/common.rs:53-75 | `encode_json_string` prints the string |
| JsonPrinter.PushUtf16Escape | crates/execution/src/common.rs:77-82 | `push_utf16_escape` appends one escape for each UTF-16 unit |
| JsonPrinter.EncodeJsonStringArray | crates/execution/src/common.rs:23-35 | `encode_json_string_array` prints the list |
| JsonPrinter.EncodeJsonStringMap | crates/execution/src/common.rs:37-51 | `encode_json_string_map` prints the map |

## Left out

- InflateTable.BuildTable: an entry holds the symbol itself; base value and extra bits are looked up by the reader of the block. Sorting and counting work on sequences, the table is filled in place.
- DeflateBlock.FlushBlock: which of the three ways is taken is left open (any choice). Symbol frequencies are unbounded numbers where the source has 16 bits, which the size of its literal buffer makes enough; those of the code-length code are counted in a sequence and then put into its tree.
- DeflateStream.Inflate: the tokens of all blocks are read before the first is written, where the source takes turns; so nothing is said of the bytes delivered before an error or the end of a cut-off input is met. Where a call may stop between two bytes of input is covered by `InflateWindow.Inflate.Decode`.
- InflateBlock.ReadHeader: the bits `inflate_fast` reads ahead and gives back are not modelled; it looks up the same entries.
- HuffmanTree.BuildTree: the one array that holds the queue at one end and the finished nodes at the other is two sequences; the bit totals are not kept.
- HuffmanLengths.GenBitLen: the bit totals `opt_len` and `static_len`, which only choose between block types, are not kept.
- Gzip and zlib headers and trailers, `_tr_align` and the flush modes: fixed fields, read and written with the buffers modelled here.
- InflateWindow.Inflate.Decode: takes the tokens of the stream as input; where a call runs out of input, unless all of it is at hand, and when the fast path is taken, is left open (any choice), which covers every input chunking but does not tie the choice to byte counts.
- InflateWindow.Output.MatchStep: the output buffer is a growing sequence with the room left as a counter, not a typed array; positions before the call's start are not modelled.
- Deflate match search, lazy matching and block splitting: heuristics that do not affect the meaning of the stream.
- CBOR bytes and JSON text of bridge values: the libraries that read and write them are not part of the repository; the model is of the value trees. Casting an integer to a double and the debug form of an odd map key are parameters.
- IpcFrames.Connection.ReceiveFrame: reading and writing never block or fail half-way; a failed read leaves the rest of the stream unspecified.
- Poisoned locks in the Python slot and the inner JavaScript execution's own slot, whose timer no production path starts.
- PollNotifier.StepInv: evaluating the targets is one step; an evaluation that reads them one by one only starts earlier than its end. Every change is taken to be followed by a notification from the same thread.
- BenchmarkResume.RunGrown: removing the state file after the artifacts are written ends the sequence of runs; JSON text of the file, timing and statistics are not modelled, and a crash during the atomic rename leaves the old or the new file.
- V8 hosting, module loading, bridge method names, Python path mapping, kernel devices, mounts and DNS: I/O, tables and single-branch dispatch.
