# Verified models of the Tair client's core algorithms

Dafny models of the algorithms in `src/common` and of the request pipeline in `src/client`, with proofs
that they compute what they are for. Each is modelled in the form of the source (loops over arrays,
objects whose methods change fields, steps of concurrent threads) and held to a reference that is
defined independently of it:

- `LzfFormat`, `LzfDecompress`, `LzfGreedy`, `LzfCompress`: the LZF codec. The reference reads a stream block by block
  and copies octet by octet. The compressor is proved to write exactly the literals and references that its hash
  table gives, for every content of that table, which the source leaves uninitialised.
- `Glob`: the pattern matcher. A pattern means that the subject can be cut into one piece per token.
- `ShaMessage`, `Sha1Spec`, `Sha1`, `Sha1Stream`, `Sha256Spec`, `Sha256Constants`, `Sha256`, `Sha256Stream`: the two
  hashes, against FIPS 180-4. `ShaExample`, `Sha1Example` and `Sha256Example` work out one digest of each.
- `Stralgo`: longest common subsequences, against their definition by increasing positions.
- `Lrand48`, `ShiftRegister`, `Crc16`, `Crc64`: fast forms of a linear congruence and of two shift registers.
- `CidrTrie`: the prefix trie on the heap, against the list of its insertions.
- `Pipeline`, `PipelineLaws`, `PipelineReplies`, `PipelineInvariant`, `PipelineClient`, `PipelineRuns`: replies matched
  to requests by order, with callbacks that send, disconnect and reconnect, failing writes and pushes. They say
  exactly when a callback fires twice.
- `Subscriptions`: which handler a pushed message goes to, and what a reconnect subscribes to.
- `DecimalText`, `Slots`: text forms, against what is printed.
- `SplitArgs`, `SplitBalance`, `SplitScanner`, `SplitForms`: splitting of quoted text, against quoting, against which
  quotes close, and against all ways of writing an argument.
- `Executor`: producers and a worker that swaps queues, over all interleavings.
- `KeyHash`, `Cluster`, `ClusterText`, `ClusterRoutes`: hash tags and slot routing.

`dafny verify dfyconfig.toml` checks all of it.

## How the source is read

- The format comment in `src/common/LZF.cpp` (lines 225-232) disagrees with the macros of lines 210-212: literal
  runs are 1 to 32 octets, distances 1 to 8192 and references up to 264 octets. The model follows the
  macros. It is the build with offsets in the table.
- A table slot has 32 bits, so positions of 2^32 and more are truncated as they are entered and can not be found again.
  The bound for equal octets therefore ends there; the other claims about the compressor have no such limit.
- For a one-byte input the compressor reads one byte past its end and never uses it. The model reads an
  arbitrary value there.
- Shifts and masks of bytes and counters are written as divisions and remainders, with every
  truncation to 16, 32 or 64 bits written out.
- A `char` of the glob matcher may be signed or not; its values range over -128 to 255. The byte after
  the pattern is zero, and so is the byte after the text that `splitArgs` reads.
- `Stralgo::lcs` indexes its table with 32-bit arithmetic. The length is right for all sizes. The walk
  back is modelled for all sizes too, with what it then reads. It finds a longest common subsequence
  when the table has at most 2^32 + 2 cells. That is enough, not necessary: the cells have different addresses
  exactly up to 2^32, the first two are never read where they matter, and `Stralgo.OverflowingRun` gives
  strings beyond it for which the walk goes wrong.
- The two constant tables of the checksums and that of SHA-256 are written eight entries to a row.
- SHA-1 `update` adds the bytes waiting to `len` in 32 bits. Exactly when that sum wraps around, the bytes
  to be copied do not fit into its buffer, and the model stops there. SHA-256 `update` counts with 32 bits,
  so that its loop never ends for `len` of 2^32 or more; its model makes as many rounds as it is given.
  The length field is taken modulo 2^64, which is FIPS 180-4 for all messages it is defined for.
- The eighty rounds of SHA-1 are grouped by five, after which the register names are back in place.
- In the pipeline a request carries two scripts, for its callback with a reply and without one, since the callback
  of a subscriber may run with both; the same request may be sent more than once. All callbacks are given, as every
  caller in the source does. What the handler of a push does is part of the push.
- A write fails only when a request says so and the connection is up; it then closes the connection inside the send
  (`src/network/TcpConnection.cpp`, lines 185-192). Later failures are events.
- The source dereferences null when it sends with a client that has no connection yet, or disconnects one that has not
  started to connect. There, and where a subscriber pops an empty queue, the model stops as undefined, and a
  failed assertion stops it as well; no claim is made behind that.
- After a connection is closed, and until the next one is up, sends are queued and never written. The replies on
  that next connection then go to other requests than their own (`PipelineInvariant.AnswersItsOwnIff`).
- Giving up or replacing a client closes its connection: in the loop at once, and otherwise in an event of its own, as
  is the start of the new one. A new client comes up or fails in an event of its own. After a decode error the old
  connection, if it is closed, delivers nothing more; if there is no address it stays, and which requests its
  replies answer is not followed any further.
- In the executor a step is a critical section, a read or a store of the atomic flag, a notification without
  the lock, or the creation or the end of the thread. One thread starts and stops the executor. A parked worker may
  wake at any time, so its timeout and spurious wake-ups are covered.

## Model

| member | source | states |
|---|---|---|
| `LzfFormat.CopyBackUnique` | src/common/LZF.cpp:575-601 | a back reference is determined by two facts: it extends what was written, and each new octet repeats the one `dist` before it |
| `LzfFormat.DecodeMoreRoom` | src/common/LZF.cpp:471-484 | a successful expansion does not depend on how much room is left over |
| `LzfFormat.DecodeConcat` | src/common/LZF.cpp:492-604 | expanding a stream followed by another is expanding the second after the first |
| `LzfFormat.ReferenceReads` | src/common/LZF.cpp:379-385 | every packed length (3..264) and distance (1..8192) fits its bits and reads back as itself |
| `LzfFormat.Example` | src/common/LZF.cpp:210-212 | a stream of six bytes and the twenty octets it expands to |
| `LzfDecompress.CopyReference` | src/common/LZF.cpp:571-602 | the short ladder, `memcpy` on disjoint areas and the overlapping loop all equal octet-by-octet copying; octets behind the copy keep their value |
| `LzfDecompress.CopyRun` | src/common/LZF.cpp:509-542 | entering the ladder of 32 cases at any length copies exactly that many octets and nothing behind them |
| `LzfDecompress.CopyShort` | src/common/LZF.cpp:589-600 | entering the ladder of ten cases copies two octets more than the length, as the octet-at-a-time copy of a back reference does |
| `LzfDecompress.TakeRun` | src/common/LZF.cpp:494-543 | a literal run: exactly the reference reading of the block, with its two errors, inside both buffers |
| `LzfDecompress.TakeHeader` | src/common/LZF.cpp:545-562 | reads length and distance as the format says, and stops exactly when the header is cut off |
| `LzfDecompress.TakeReference` | src/common/LZF.cpp:544-603 | a back reference: exactly the reference reading of the block, with its errors in the order of the tests |
| `LzfDecompress.Decompress` | src/common/LZF.cpp:486-607 | for every byte string of at least one byte and every `out_len`: the octet-at-a-time decoder and the decompressor agree on success, length, octets and on E2BIG and EINVAL, and octets behind the result are untouched |
| `LzfGreedy.SlotIs` | src/common/LZF.cpp:185-193 | the slot of three octets is a fixed function of the number they form |
| `LzfGreedy.SlotOfRolled` | src/common/LZF.cpp:185-193 | the slot computed from the rolling hash depends on the three octets alone, whatever was rolled in before them |
| `LzfGreedy.ExtentUnique` | src/common/LZF.cpp:322-375 | there is just one length to which a match is extended |
| `LzfGreedy.ParseFollows` | src/common/LZF.cpp:300-431 | the moves a table gives: a literal stands only where the position kept in the slot is no hit, a reference only where it is one, and it goes as far as it may |
| `LzfGreedy.StreamExpands` | src/common/LZF.cpp:259-448 | the stream of any moves that say what the input holds expands to it |
| `LzfGreedy.StreamShort` | src/common/LZF.cpp:238-243 | and has at most one byte in 32 more than the input |
| `LzfGreedy.RoomForAll` | src/common/LZF.cpp:320-331 | the tests of the room pass whenever the output has `in_len` + `in_len`/32 + 4 bytes |
| `LzfGreedy.RoomSuffices` | src/common/LZF.cpp:320-331 | they pass as well whenever the output has four bytes more than the stream |
| `LzfGreedy.EqualOctets` | src/common/LZF.cpp:309-388 | for every table, 9 to 2^32 equal octets become at most 9 + 3 floor(`in_len`/264) bytes |
| `LzfCompress.MatchLength` | src/common/LZF.cpp:322-375 | the unrolled extender finds exactly the greatest length the source allows: up to the first difference, up to `maxlen`, and up to nineteen before the length is tested |
| `LzfCompress.PutLiteral` | src/common/LZF.cpp:417-430 | one more octet joins the open run, and a full run is closed: the complete stream and the run afterwards |
| `LzfCompress.CloseRun` | src/common/LZF.cpp:330-331 | patching the control byte, or undoing an empty run, leaves exactly the stream with the run as a block |
| `LzfCompress.PutMatch` | src/common/LZF.cpp:320-388 | refuses exactly when the exact room test fails; otherwise what is written is the closed run and one reference as long as the match goes and as far back as it lies |
| `LzfCompress.PutTail` | src/common/LZF.cpp:432-447 | the last octets and the open run: the output is then the stream of all moves, inside the output although the loop has no test |
| `LzfCompress.Lookup` | src/common/LZF.cpp:303-320 | whatever the table holds, a hit is exactly a near position, not the first, where the same three octets start; the position enters the slot of its own three octets, and the hash stays rolled |
| `LzfCompress.Rehash` | src/common/LZF.cpp:393-408 | the last two positions of the match are entered under the slots of their own octets, the later one last, and the hash is that of the position behind the match |
| `LzfCompress.Round` | src/common/LZF.cpp:303-431 | one round makes exactly the first move that the table gives, a match whenever there is a hit; what the whole output will be, and which tests of the room are still to come, does not change |
| `LzfCompress.Rounds` | src/common/LZF.cpp:300-431 | the loop makes all moves but the last octets, and refuses exactly when a test of the room fails |
| `LzfCompress.Compress` | src/common/LZF.cpp:259-448 | for every input, `out_len` and table contents: the result is non-zero exactly when all tests of the room pass, and then it is the length of the stream of the moves that the table gives, which expands to exactly the input, has at most `in_len` + ceil(`in_len`/32) bytes, and is found whenever the output has `in_len` + `in_len`/32 + 4; from 9 up to 2^32 equal octets become at most 9 + 3 floor(`in_len`/264) bytes |
| `LzfCompress.RoundTrip` | src/common/LZF.cpp:234-257 | compressing and then decompressing into any buffer that can hold the input gives back its length and its octets |
| `Glob.CoversStep` | src/common/StringUtil.cpp:283-369 | every token but a star consumes exactly one character, which is why the cut-off is sound |
| `Glob.CoversStar` | src/common/StringUtil.cpp:252-269 | a star matches when the rest matches at some later start |
| `Glob.Example` | src/common/StringUtil.cpp:252-369 | the tokens of a pattern with a star, a negated class with a range, an escape and a bracket that is never closed |
| `Glob.CaseOfOne` | src/common/StringUtil.cpp:303-363 | without regard to case a literal and a plain class entry accept a character that is equal or the other form of one of the letters A to Z, and an escaped entry its own form alone |
| `Glob.CaseOfRange` | src/common/StringUtil.cpp:309-321 | a range of letters of one case then accepts a character exactly when one of its forms lies in the range |
| `Glob.MatchClass` | src/common/StringUtil.cpp:287-340 | a class accepts what its entries accept: escapes exactly, ranges in either order, nocase lowering, unclosed classes end with the pattern |
| `Glob.MatchOne` | src/common/StringUtil.cpp:283-369 | one token against one character |
| `Glob.ConsumeOne` | src/common/StringUtil.cpp:250-372 | the part consumed so far has a fixed length, so a match of the whole from a later start is a match of the rest, shifted |
| `Glob.StarFails` | src/common/StringUtil.cpp:270-281 | setting the cut-off flag is sound: the pattern fails from every later start as well |
| `Glob.MatchImpl` | src/common/StringUtil.cpp:249-386 | on a non-empty rest the answer is the declarative one; the flag is set only when no later start can match; the recursion terminates |
| `Glob.MatchLen` | src/common/StringUtil.cpp:388-391 | true exactly when the subject can be cut into pieces, one per token, that the tokens accept; an empty subject is accepted by the empty pattern alone |
| `Glob.IgnoresCaseIff` | src/common/StringUtil.cpp:303-363 | changing the case of letters in the subject never changes a nocase answer exactly when some token of the pattern accepts nothing or every escaped letter of a class has its other form accepted by that class |
| `Glob.NoClassIgnoresCase` | src/common/StringUtil.cpp:359-363 | so without classes it never does |
| `Glob.EmptySubject` | src/common/StringUtil.cpp:250-385 | code and meaning differ exactly when the subject is empty and the pattern is one or more stars and nothing else |
| `ShaMessage.ZeroCountIsLeast` | src/common/Sha.cpp:217-222 | the number of zero bytes is the least solution of the congruence in section 5.1.1 of FIPS 180-4 |
| `ShaMessage.FieldIsNumber` | src/common/Sha.cpp:134-143 | the length field is the number of bits modulo 2^64, most significant byte first |
| `ShaMessage.FoldBlock` | src/common/Sha.cpp:181-183 | one more block is one more compression |
| `Sha1Spec.SwapReadsWord` | src/common/Sha.cpp:232-239 | the byte swap of `blk0` turns a little-endian load into the big-endian word |
| `Sha1Spec.Choose` | src/common/Sha.cpp:248-249 | the choose form of the macros is Ch of section 4.1.1 |
| `Sha1Spec.Majority` | src/common/Sha.cpp:251 | the majority form of the macros is Maj of section 4.1.1 |
| `Sha1Spec.RoundIs` | src/common/Sha.cpp:247-252 | a round of the macros, in their order of summation, is the round of section 6.1.2 |
| `Sha1Spec.MixMoves` | src/common/Sha.cpp:244-245 | bit (i + 1) mod 32 of a new word of the schedule is bit i of the exclusive-or of the four words |
| `Sha1Spec.RotlFiveMoves` | src/common/Sha.cpp:232-252 | a rotation by five moves bit i to place (i + 5) mod 32 |
| `Sha1Spec.RotlThirtyMoves` | src/common/Sha.cpp:248-252 | and one by thirty to place (i + 30) mod 32 |
| `Sha1.Blk0` | src/common/Sha.cpp:234-243 | the word is put in order in place and the circular block stays a window of the schedule |
| `Sha1.Blk` | src/common/Sha.cpp:244-245 | the oldest of the sixteen words is replaced by the next word of the 80-word schedule |
| `Sha1.R0` | src/common/Sha.cpp:248 | a round of the first phase moves the run from round i to i + 1 under renamed registers |
| `Sha1.R1` | src/common/Sha.cpp:249 | a round on the expanded schedule with Ch moves the run from round i to i + 1, rounds 16 to 19 |
| `Sha1.R2` | src/common/Sha.cpp:250 | a Parity round moves the run from round i to i + 1, rounds 20 to 39 |
| `Sha1.R3` | src/common/Sha.cpp:251 | a Maj round moves the run from round i to i + 1, rounds 40 to 59 |
| `Sha1.R4` | src/common/Sha.cpp:252 | a Parity round with the last constant moves the run from round i to i + 1, rounds 60 to 79 |
| `Sha1.Eighty` | src/common/Sha.cpp:277-297 | eighty renamed-register rounds on the circular block equal the rotating registers of section 6.1.2 |
| `Sha1.Transform` | src/common/Sha.cpp:256-309 | for every state and block, the state becomes the hash value of section 6.1.2 |
| `Sha1Stream.CountsAdd` | src/common/Sha.cpp:173-176 | the carry test and the two shifts add eight times `len` to the two-word counter modulo 2^64 |
| `Sha1Stream.SumWraps` | src/common/Sha.cpp:178-187 | the branch that completes no block is taken with more bytes than fit exactly when the 32-bit sum wraps around |
| `Sha1Stream.Sha1Context.Init` | src/common/Sha.cpp:160-168 | the context of the empty message |
| `Sha1Stream.Sha1Context.Update` | src/common/Sha.cpp:170-188 | for every `len` of 32 bits: appends the piece to the message when it and the waiting bytes add up below 2^32, and otherwise, and only then, stops at a copy that does not fit the buffer |
| `Sha1Stream.Sha1Context.AddPadding` | src/common/Sha.cpp:217-222 | the byte-wise updates append 0x80 and exactly the zero bytes of section 5.1.1 |
| `Sha1Stream.Sha1Context.Final` | src/common/Sha.cpp:190-230 | the digest is SHA-1 of the message padded per section 5.1.1, and the context is wiped |
| `Sha1Stream.HashPieces` | src/common/Sha.cpp:312-319 | however a message is cut into pieces of any 32-bit length, the digest is that of the concatenation, or there is none, which is when some piece does not fit |
| `Sha1Stream.OneByteTooMany` | src/common/Sha.cpp:178-187 | an input that does not fit: one byte and then 2^32 - 1 bytes |
| `Sha1Example.Abc` | src/common/Sha.cpp:312-319 | the digest of "abc" is the published one |
| `Sha256Constants.ConstantsAreCubeRoots` | src/common/Sha.cpp:40-49 | every entry of `k` is the first 32 fraction bits of the cube root of its prime, section 4.2.2 |
| `Sha256Constants.InitialAreSquareRoots` | src/common/Sha.cpp:94-101 | the initial words are the first 32 fraction bits of the square roots of the first eight primes, section 5.3.3 |
| `Sha256.Extend` | src/common/Sha.cpp:56-57 | the array becomes the 64-word schedule |
| `Sha256.RunRounds` | src/common/Sha.cpp:68-79 | the register shuffle is step 3 of section 6.2.2 |
| `Sha256.Transform` | src/common/Sha.cpp:51-89 | for every state and block, the state becomes the hash value of section 6.2.2 |
| `Sha256Stream.Sha256Context.Init` | src/common/Sha.cpp:91-102 | the context of the empty message |
| `Sha256Stream.Sha256Context.Update` | src/common/Sha.cpp:104-116 | for every `len` and every number of rounds: ends exactly when `len` is below 2^32 and there are rounds enough, with the bytes appended; before that it has appended what its wrapping counter reads |
| `Sha256Stream.CounterReaches` | src/common/Sha.cpp:105-107 | some number of rounds ends the loop exactly when `len` is below 2^32 |
| `Sha256Stream.ReachesEnd` | src/common/Sha.cpp:105-107 | after n rounds the 32-bit counter has reached `len` exactly when `len` is below 2^32 and n is `len` |
| `Sha256Stream.Sha256Context.PadBuffer` | src/common/Sha.cpp:118-132 | one or two blocks of padding, the first compressed when the length does not fit |
| `Sha256Stream.Sha256Context.PutLength` | src/common/Sha.cpp:134-143 | the eight bytes are the bit length of the message modulo 2^64, most significant first |
| `Sha256Stream.Sha256Context.Final` | src/common/Sha.cpp:118-158 | the hash is SHA-256 of the message padded per section 5.1.1 |
| `Sha256Stream.HashPieces` | src/common/Sha.cpp:104-158 | however a message is cut into pieces, the digest is that of the concatenation, or there is none, which is when some piece is longer than the rounds its loop is given, or has 2^32 bytes or more, so that no number of rounds ends it |
| `Sha256Example.Abc` | src/common/Sha.cpp:104-158 | the hash of "abc" is the published one |
| `Stralgo.LengthIsLongest` | src/common/Stralgo.cpp:53-66 | the recurrence of the table is the greatest length of a common subsequence |
| `Stralgo.AddressesDistinct` | src/common/Stralgo.cpp:39 | 32-bit indexing tells all cells apart exactly when the table has at most 2^32 of them |
| `Stralgo.TableShows` | src/common/Stralgo.cpp:39-68 | whatever the size, a read of any cell gives the length of the cell written last at its address |
| `Stralgo.MatchHasRoom` | src/common/Stralgo.cpp:85-87 | at every match there is still room in the string, so that its index does not run below zero |
| `Stralgo.BuildTable` | src/common/Stralgo.cpp:50-68 | for every size, the last 2^32 cells written hold their true lengths |
| `Stralgo.TrackMatch` | src/common/Stralgo.cpp:85-107 | a match opens a range or extends the open one; the non-contiguous branch is unreachable |
| `Stralgo.Emit` | src/common/Stralgo.cpp:125-137 | emitting a range changes nothing of what has been spelled and reports it when it is long enough |
| `Stralgo.Walk` | src/common/Stralgo.cpp:70-138 | for tables of every size, the walk back spells a common subsequence, of as many characters as it passes, stores it at the end of the resized string, and passes equal substrings, disjoint and not mergeable, that spell it |
| `Stralgo.TableSize` | src/common/Stralgo.cpp:41-49 | the overflow test of the allocation refuses exactly the tables of 2^64 bytes or more |
| `Stralgo.Lcs` | src/common/Stralgo.cpp:27-142 | for all inputs: `len` is the true maximum; `matchstr` ends in a common subsequence, which is all of it and has that length when the table has at most 2^32 + 2 cells; the ranges, read backwards, spell it and their lengths add up to it, and those long enough are reported in order of emission |
| `Stralgo.FittingWalk` | src/common/Stralgo.cpp:83-123 | in a table of at most 2^32 + 2 cells, which is enough, the walk passes a longest common subsequence from every pair |
| `Stralgo.OverflowingWalk` | src/common/Stralgo.cpp:111-123 | concrete strings whose table does not fit: the maximum is two and the walk passes one character |
| `Stralgo.OverflowingRun` | src/common/Stralgo.cpp:27-142 | on these strings `lcs` returns the length two and a string that is no common subsequence |
| `Lrand48.NextLimbs` | src/common/MathUtil.cpp:58-70 | three limbs with all carries compute X' = (0x5DEECE66D X + 0xB) mod 2^48 |
| `Lrand48.Generator.Next` | src/common/MathUtil.cpp:58-70 | the state of the generator makes one step of the recurrence |
| `Lrand48.Generator.Lrand` | src/common/MathUtil.cpp:72-75 | a step, then the top 31 of the 48 bits |
| `Lrand48.Generator.Srand` | src/common/MathUtil.cpp:77-79 | the state (seed mod 2^32) 2^16 + 0x330E |
| `Lrand48.Draws` | src/common/MathUtil.cpp:72-79 | after seeding, the n-th draw is the top 31 bits of the n-th iterate, as drand48() in IEEE Std 1003.1 has it |
| `Lrand48.FirstDraws` | src/common/MathUtil.cpp:58-79 | the first four draws after the seed 0 |
| `ShiftRegister.ByteStep` | src/common/CRC.cpp:66-68 | for any linear shift register, eight bits at once: the part that takes part in the feedback and the part that only moves add up |
| `Crc16.EntryIsSerial` | src/common/CRC.cpp:27-60 | all 256 entries are eight zero bits of the register with polynomial 0x1021 |
| `Crc16.StepIsSerial` | src/common/CRC.cpp:67 | one table step is eight bit steps |
| `Crc16.Checksum` | src/common/CRC.cpp:63-70 | `crc16` of every message is the bit-by-bit register |
| `Crc16.CheckValue` | src/common/CRC.hpp:42 | the checksum of the digits from 1 to 9 is 0x31c3 |
| `Crc64.EntryIsSerial` | src/common/CRC.cpp:73-202 | all 256 entries are eight zero bits of the reflected register with polynomial 0x95ac9329ac4bc9b5 |
| `Crc64.StepIsSerial` | src/common/CRC.cpp:208-209 | one table step is eight bit steps |
| `Crc64.Checksum` | src/common/CRC.cpp:205-212 | `crc64` of every message and start value is the bit-by-bit register |
| `Crc64.CrcConcat` | src/common/CRC.cpp:205-212 | the checksum of a concatenation continues from the checksum of the first part |
| `Crc64.CheckValue` | src/common/CRC.hpp:57 | the checksum of the digits from 1 to 9 is 0xe9c6d914c4b8d9ca |
| `CidrTrie.ValuesAreFirst` | src/common/CidrTrieTree.cpp:66-74 | for every non-empty prefix the value kept is the first one ever put for it |
| `CidrTrie.PrefixIff` | src/common/CidrTrieTree.cpp:49-65 | two addresses lead along the same n bits exactly when their first n / 8 bytes are equal and the next ones differ below the top n mod 8 bits at most |
| `CidrTrie.CidrTrieTree.CreateNode` | src/common/CidrTrieTree.cpp:32-41 | a non-null node that belongs to no path yet, from the current block or a new one |
| `CidrTrie.TrieMemory.AllocNode` | src/common/CidrTrieTree.hpp:63-72 | the next cell of a block, or null when only the last one is left |
| `CidrTrie.CidrTrieTree.Descend` | src/common/CidrTrieTree.cpp:51-65 | creates the missing child; the tree stays without cycles and sharing |
| `CidrTrie.CidrTrieTree.Attach` | src/common/CidrTrieTree.cpp:53-62 | a new node below one of the tree: no other path changes and no node ends two paths |
| `CidrTrie.CidrTrieTree.TrieNodePut` | src/common/CidrTrieTree.cpp:43-76 | the effect of a put is one more entry in the history, with address, `cidr` and value; the tree keeps agreeing with it |
| `CidrTrie.CidrTrieTree.TrieNodeSearch` | src/common/CidrTrieTree.cpp:78-109 | over n bytes: an empty tree finds nothing, a tree of /0 puts alone finds everything, and otherwise it succeeds iff some inserted address of 1 to 8n bits agrees with the query in these bits, with the value put first for the shortest of them |
| `CidrTrie.CidrTrieTree.IsEmpty` | src/common/CidrTrieTree.cpp:111-113 | true exactly when nothing has been inserted since the tree was last cleared |
| `CidrTrie.CidrTrieTree.Clear` | src/common/CidrTrieTree.cpp:115-121 | the history is empty again |
| `PipelineLaws.RunLeads` | src/client/TairBaseClient.cpp:278-308 | whatever a script of sends, disconnects and reconnects does, with failing writes and however its callbacks nest: calls and completions are only added, without a reply; the queue keeps its order; every request has fired once or waits, if that was so before; the promise is completed at most once |
| `PipelineLaws.ClearedLeads` | src/client/TairBaseClient.cpp:278-290 | clearing the queue keeps the same, also when callbacks send, disconnect or reconnect meanwhile |
| `PipelineLaws.RefusedOnce` | src/client/TairBaseClient.cpp:294-299 | sent without a client, every request and everything its callbacks send is completed exactly once |
| `PipelineLaws.LossCompletesAll` | src/client/TairBaseClient.cpp:224-235 | a lost connection completes everything waiting and everything sent meanwhile exactly once, without a reply |
| `PipelineLaws.ClearingCompletesAll` | src/client/TairBaseClient.cpp:264-266 | so does clearing the queue after a decode error |
| `PipelineReplies.StillUpIff` | src/client/TairBaseClient.cpp:134-149 | a connection that is up stays up exactly when the script does not disconnect, reconnect to an address or send what cannot be written; then it only queues what it sends |
| `PipelineReplies.FiresTwiceIff` | src/client/TairSubscribeClient.cpp:74-79 | for every state with a connection up: the callback that a subscriber runs for a reply fires a second time exactly when it closes the connection while it runs, and then at once and without a reply |
| `PipelineReplies.PopCommutes` | src/client/TairSubscribeClient.cpp:74-79 | if it does not, popping after the callback has run comes to the same as popping before |
| `PipelineReplies.WholeIff` | src/client/TairSubscribeClient.cpp:74-79 | after the reply every request has fired once or waits exactly when that callback does not close the connection |
| `PipelineReplies.PopFindsNothing` | src/client/TairSubscribeClient.cpp:79 | when the callback has disconnected or reconnected, the pop behind it finds an empty queue |
| `PipelineReplies.PopLosesAnother` | src/client/TairSubscribeClient.cpp:79 | when a write of the callback has failed and the pop finds a request, it is another one, sent later, which is then neither completed nor waiting |
| `PipelineReplies.EndsIff` | src/client/TairBaseClient.cpp:237-247 | in the base client a reply ends the process exactly when nothing waits for it or the callback closes the connection, or tries to reconnect |
| `PipelineReplies.RunAborts` | src/client/TairBaseClient.cpp:180-185 | inside a callback that the flag marks, closing a connection that is up ends the process |
| `PipelineReplies.FreshStays` | src/client/TairBaseClient.cpp:110-121 | while a new client replaces one that is up, no callback can give it up without an error |
| `PipelineReplies.GreetingWritten` | src/client/TairBaseClient.cpp:151-178 | when its writes succeed, a new connection writes the password if there is one, the name and the subscriptions, in this order and nothing else, and queues them behind what was waiting; without a password the promise is completed |
| `PipelineInvariant.LeadsKeeps` | src/client/TairBaseClient.cpp:278-308 | order, balance and the promises are kept by everything that answers nothing |
| `PipelineInvariant.ReplyKeeps` | src/client/TairBaseClient.cpp:237-247 | and by a reply that is popped before its callback runs |
| `PipelineInvariant.ReplySettles` | src/client/TairBaseClient.cpp:157-163 | the reply to a request that asks for it completes the pending promise once, whatever its callback does |
| `PipelineInvariant.NoneFiresTwice` | src/client/TairBaseClient.cpp:237-247 | when they are kept and no request is sent twice, no callback has fired twice in the whole run |
| `PipelineInvariant.LostSettles` | src/client/TairBaseClient.cpp:211-235 | while a connection is lost, the pending promise is completed exactly once, by a callback or behind them |
| `PipelineInvariant.SecondTimeIff` | src/client/TairBaseClient.cpp:124-132 | a lost connection completes the pending promise for the second time exactly when its `connect` could not start, whatever the callbacks do meanwhile |
| `PipelineInvariant.MatchedByOrder` | src/client/TairBaseClient.cpp:249-256 | completions in order of the queue match replies to requests by position |
| `PipelineInvariant.AnswersItsOwnIff` | src/client/TairBaseClient.cpp:300-304 | if no request is sent twice, a reply on a connection completes the request it answers exactly when nothing was waiting as that connection came up |
| `PipelineClient.Client.RunScript` | src/client/TairBaseClient.cpp:292-308 | what a callback does, method by method, is what the functions say |
| `PipelineClient.Client.SendCommandInLoop` | src/client/TairBaseClient.cpp:292-308 | queues the request and writes it, completes it at once with a null reply when there is no client, or loses the connection when the write fails, however deeply callbacks nest |
| `PipelineClient.Client.SendCommand` | src/client/TairBaseClient.cpp:292-308 | by the state of the connection: an immediate null reply, undefined behaviour, one more request at the end of the queue, written too if the connection is up, or, when that write fails, a closed connection with nothing waiting |
| `PipelineClient.Client.Callback` | src/client/TairBaseClient.cpp:242-246 | a callback may complete the promise and then does what its script says |
| `PipelineClient.Client.DisconnectInLoop` | src/client/TairBaseClient.cpp:134-144 | closes a connection that is up and gives up the client, if the process gets so far |
| `PipelineClient.Client.ReconnectInLoop` | src/client/TairBaseClient.cpp:105-122 | refused inside a callback that the flag marks; a client that is up is replaced before its connection is closed |
| `PipelineClient.Client.OnConnectionLost` | src/client/TairBaseClient.cpp:224-235 | the queue is cleared and then the promise completed; inside a callback that the flag marks the process ends |
| `PipelineClient.Client.ClearCallbacks` | src/client/TairBaseClient.cpp:278-290 | terminates, also with what callbacks send meanwhile |
| `PipelineClient.Client.OnRecvResponse` | src/client/TairBaseClient.cpp:237-247 | a reply completes the front of the queue and keeps the invariant; the process ends exactly when nothing waits or the callback closes the connection |
| `PipelineClient.Client.OnRecvSubscribed` | src/client/TairSubscribeClient.cpp:64-81 | a push message does what its handler does; a reply completes the front, unless its callback closes the connection, which is exactly when it fires again |
| `PipelineClient.Client.OnMessage` | src/client/TairBaseClient.cpp:249-276 | the k-th reply completes the k-th request that was waiting or has been queued since, across pushes, callbacks and decode errors, unless the process ends or the callback of a subscriber has fired twice |
| `PipelineClient.Client.Connect` | src/client/TairBaseClient.cpp:124-132 | a new promise; when `doConnect` fails it is completed at once and stays pending |
| `PipelineClient.Client.ConnectInLoop` | src/network/TcpClient.cpp:55-63 | outside of the loop, a new client starts to connect in an event of its own |
| `PipelineClient.Client.OnConnected` | src/client/TairBaseClient.cpp:151-178 | for every state: the password request, or an immediate completion of the promise, then the name and, for a subscriber, the subscriptions; when the writes succeed just these are written in this order and queued behind what was waiting; from then on replies are counted against both |
| `PipelineClient.Client.OnDisconnected` | src/client/TairBaseClient.cpp:211-235 | the queue is emptied and the pending promise completed, which is the second time exactly when its `connect` could not start |
| `PipelineClient.Client.OnSilence` | src/client/TairBaseClient.cpp:187-197 | the client is given up, so that everything waiting is completed with sends refused, and a new one is made if there is an address |
| `PipelineClient.Client.Disconnect` | src/client/TairBaseClient.cpp:134-144 | a connection that is up completes everything waiting and the promise; afterwards there is no client |
| `PipelineClient.Client.Reconnect` | src/client/TairBaseClient.cpp:146-149 | in the loop and outside of it, a new client if there is an address |
| `PipelineRuns.SubscriberDisconnects` | src/client/TairSubscribeClient.cpp:74-79 | a run: the callback of a subscriber disconnects, fires a second time with a null reply, and the pop behind it finds nothing |
| `PipelineRuns.BaseDisconnects` | src/client/TairBaseClient.cpp:180-185 | the same run ends the process of a base client |
| `PipelineRuns.SubscriberLoses` | src/client/TairSubscribeClient.cpp:74-79 | a run: a write of the callback fails; the callback fires twice, and that of the next request it sends never fires |
| `PipelineRuns.ReplyGoesAstray` | src/client/TairBaseClient.cpp:300-304 | a run: a request sent between two connections is never written, and the first reply on the second one completes it |
| `PipelineRuns.FailedConnectSettlesTwice` | src/client/TairBaseClient.cpp:124-132 | a run in which a promise is completed twice |
| `Subscriptions.LatestIsLast` | src/client/TairSubscribeClient.cpp:89-97 | a topic has a handler exactly when the last confirmation about it was a subscription, and it has that one's |
| `Subscriptions.SubscriptionTable.DoPubSubCount` | src/client/TairSubscribeClient.cpp:83-97 | the two tables follow the confirmations |
| `Subscriptions.SubscriptionTable.Deliver` | src/client/TairSubscribeClient.cpp:42-62 | a message is given to the handler registered last for its channel or pattern, if there is one |
| `Subscriptions.SubscriptionTable.Resubscribe` | src/client/TairSubscribeClient.cpp:31-40 | a new connection subscribes to every registered channel and pattern once, with its handler, and to nothing else |
| `Subscriptions.ReconnectKeeps` | src/client/TairSubscribeClient.cpp:31-40 | when those subscriptions are confirmed, every topic has the handler it had before |
| `SplitArgs.ToPrintableStr` | src/common/StringUtil.cpp:177-199 | appends the printable form, byte by byte |
| `SplitForms.EscapeIs` | src/common/StringUtil.cpp:177-199 | which bytes are printed as they are, which behind a backslash, and which as two hexadecimal digits |
| `SplitForms.PrintableSameIff` | src/common/StringUtil.cpp:177-199 | a text is printed as it is exactly when it holds printable bytes alone, and no double quote or backslash |
| `SplitArgs.ReadsEscape` | src/common/StringUtil.cpp:91-119 | inside double quotes, the scanner reads each printed byte back as that byte |
| `SplitScanner.Round` | src/common/StringUtil.cpp:90-159 | one round of the scanner in each of its three modes |
| `SplitBalance.Section` | src/common/StringUtil.cpp:91-146 | inside quotes the scanner succeeds exactly when a closing quote is followed by a blank or the end: the first double quote behind an even number of backslashes, or the first apostrophe without a backslash right before it |
| `SplitBalance.SplitsIff` | src/common/StringUtil.cpp:77-170 | the refused texts are those in which some quoted section is not closed, or not followed by a blank or the end |
| `SplitScanner.SplitInto` | src/common/StringUtil.cpp:77-170 | true with the arguments of the text exactly when the text is balanced, and otherwise false and no arguments |
| `SplitForms.ReadsRaw` | src/common/StringUtil.cpp:117-118 | a byte inside double quotes is added as it is |
| `SplitForms.ReadsSign` | src/common/StringUtil.cpp:96-107 | behind a backslash there, five letters stand for control bytes and every other byte for itself |
| `SplitForms.ReadsHex` | src/common/StringUtil.cpp:91-95 | and two hexadecimal digits behind the letter x, small or capital, for the byte they name |
| `SplitForms.ReadsSingly` | src/common/StringUtil.cpp:120-136 | the bytes between apostrophes are added as they are, an apostrophe behind a backslash as an apostrophe |
| `SplitForms.ReadsWord` | src/common/StringUtil.cpp:138-156 | the bytes of an unquoted word are added as they are |
| `SplitForms.TextSplits` | src/common/StringUtil.cpp:77-170 | a text of arguments, each a bare word, a quoted section of either kind, or a word with such a section behind it, and with any blanks between them, splits into these arguments |
| `SplitArgs.RoundTrip` | src/common/StringUtil.cpp:77-199 | for every list of byte strings, splitting the quoted and joined list yields the list |
| `DecimalText.String2ll` | src/common/StringUtil.cpp:645-712 | succeeds exactly on the printed forms of the integers in [-2^63, 2^63 - 1] and returns the one printed |
| `DecimalText.String2ull` | src/common/StringUtil.cpp:599-643 | succeeds exactly on the printed forms of the integers in [0, 2^64 - 1] and returns the one printed |
| `DecimalText.ParseDigits` | src/common/StringUtil.cpp:673-694 | the two unsigned overflow tests fire exactly when the number exceeds 2^64 - 1 |
| `DecimalText.CanonicalIsDigits` | src/common/StringUtil.cpp:655-680 | a string of digits without leading zeros is the printed form of its value |
| `Slots.RunsAreMaximal` | src/common/SlotsBitset.cpp:103-122 | the runs are in order, disjoint, not adjacent, and together are the set |
| `Slots.SlotsBitset.ToRanges` | src/common/SlotsBitset.cpp:103-122 | lists exactly the maximal runs |
| `Slots.SlotsBitset.ToString` | src/common/SlotsBitset.cpp:77-101 | prints exactly the maximal runs |
| `Slots.SlotsBitset.LoadFromString` | src/common/SlotsBitset.cpp:27-75 | succeeds exactly on non-empty lists of disjoint ranges and single slots in canonical decimals, sets exactly those slots, and leaves the set as it was otherwise |
| `Slots.RoundTrip` | src/common/SlotsBitset.cpp:27-101 | the text of a non-empty set reads back as that set |
| `Slots.Example` | src/common/SlotsBitset.cpp:77-101 | the text of three runs |
| `Executor.EveryRun` | src/common/ThreadExecutor.cpp:51-123 | in every interleaving: executed tasks, the rest of the batch and the queue are the accepted tasks in order, a worker parked over a non-empty queue has been notified since it parked, and a thread is created only when there is none |
| `Executor.ExecutedInOrder` | src/common/ThreadExecutor.cpp:107-110 | what has been executed is a beginning of what was accepted, in that order |
| `Executor.QueueBound` | src/common/ThreadExecutor.hpp:70-88 | with P producers that do not force and a positive capacity, the queue never exceeds capacity + P |
| `Executor.BoundIsReached` | src/common/ThreadExecutor.hpp:70-88 | the bound of capacity + P is reached by some run without forcing |
| `Executor.ForcedNeverWaits` | src/common/ThreadExecutor.hpp:73 | in every run, a producer that sleeps does not force its task and there is a capacity |
| `Executor.WaitsIff` | src/common/ThreadExecutor.hpp:73 | from every state a producer at the size test sleeps exactly when it does not force and more tasks are queued than a positive capacity, and passes otherwise |
| `Executor.ForcedIsTaken` | src/common/ThreadExecutor.hpp:97 | from every state of a running executor, a forced task is taken in by three steps that nothing holds up |
| `Executor.Drains` | src/common/ThreadExecutor.cpp:86-123 | from every sound state of a running executor the steps of the worker alone can lead to all accepted tasks being run, in order |
| `Executor.StopEnds` | src/common/ThreadExecutor.cpp:58-64 | from every sound state the steps of the worker alone can end its thread, so that a join returns |
| `Executor.ThreadExecutor.BeginPut` | src/common/ThreadExecutor.hpp:72 | a task is taken up only while the executor runs: exactly the step `Begin`, order and wake-ups kept |
| `Executor.ThreadExecutor.CheckCapacity` | src/common/ThreadExecutor.hpp:73 | the size test, before the lock: exactly the step `Check`; the producer sleeps exactly when its task is not forced and the queue is longer than a positive capacity |
| `Executor.ThreadExecutor.RecheckStopped` | src/common/ThreadExecutor.hpp:74-78 | the end of the sleep: gives up when the executor has been stopped, and tests the size again otherwise; exactly the step `Recheck` |
| `Executor.ThreadExecutor.PutTask` | src/common/ThreadExecutor.hpp:79-85 | the critical section of a producer: appends, and notifies a worker that asked for it; exactly the step `Put` |
| `Executor.ThreadExecutor.LockQueue` | src/common/ThreadExecutor.cpp:95-105 | the critical section of the worker: swaps the queue with its empty batch, or asks for a notification and waits; exactly the step `WorkerLock` |
| `Executor.ThreadExecutor.WakeUp` | src/common/ThreadExecutor.cpp:99-105 | after the wait, whatever ended it: exactly the step `WorkerWake` |
| `Executor.ThreadExecutor.TestStopped` | src/common/ThreadExecutor.cpp:86 | the head of the loop: exactly the step `WorkerTest` |
| `Executor.ThreadExecutor.RunTask` | src/common/ThreadExecutor.cpp:107-110 | the next task of the batch is run: exactly the step `WorkerRun` |
| `Executor.ThreadExecutor.FinishBatch` | src/common/ThreadExecutor.cpp:111-117 | the batch ends: exactly the step `WorkerDone` |
| `Executor.ThreadExecutor.StartRunning` | src/common/ThreadExecutor.cpp:51-53 | the store of a start: exactly the step `Start` |
| `Executor.ThreadExecutor.StartWorker` | src/common/ThreadExecutor.cpp:54 | the thread is created, and there was none: exactly the step `CreateThread` |
| `Executor.ThreadExecutor.RequestStop` | src/common/ThreadExecutor.cpp:58-60 | the store of a stop: exactly the step `Stop` |
| `Executor.ThreadExecutor.WakeToStop` | src/common/ThreadExecutor.cpp:61 | the notification of a stop, without the lock: exactly the step `NotifyStop` |
| `Executor.ThreadExecutor.JoinWorker` | src/common/ThreadExecutor.cpp:62 | the join returns once the thread has ended: exactly the step `Join` |
| `Executor.StopCanBeMissed` | src/common/ThreadExecutor.cpp:58-64 | a run in which the notification of a stop comes before the worker waits, so that the join depends on the timeout |
| `KeyHash.DecidesOne` | src/common/KeyHash.cpp:28-51 | at most one part of a key decides its slot |
| `KeyHash.TagSlot` | src/common/KeyHash.cpp:39-50 | a key whose first opening brace is followed by a non-empty tag and a closing brace has the slot of the tag alone, whatever surrounds it |
| `KeyHash.MaskIsModulo` | src/common/KeyHash.hpp:33 | the mask takes the checksum, as a number, modulo 16384 |
| `KeyHash.KeyHashSlot` | src/common/KeyHash.cpp:28-51 | the slot is the checksum of the tag, or of the whole key, as a number, modulo 16384 |
| `Cluster.LastLineOwns` | src/client/TairClusterAsyncClient.cpp:189-248 | a slot belongs to the last master line that covers it |
| `Cluster.OwnedIff` | src/client/TairClusterAsyncClient.cpp:189-248 | an address is that of the last master line for a slot exactly when it is the owner after all writes |
| `ClusterText.SlotRange` | src/client/TairClusterAsyncClient.cpp:220-232 | an item of two numbers with a minus sign between them gives that range exactly when it lies in order below 16384 |
| `ClusterText.OneSlot` | src/client/TairClusterAsyncClient.cpp:233-240 | an item without a minus sign gives one slot |
| `ClusterText.NoRange` | src/client/TairClusterAsyncClient.cpp:220-245 | an item that holds no number, or more than two, ends the parse |
| `ClusterText.LineSkipped` | src/client/TairClusterAsyncClient.cpp:192-200 | lines of less than nine fields, and lines whose third field does not contain "master", say nothing |
| `ClusterText.MasterLineIs` | src/client/TairClusterAsyncClient.cpp:201-245 | the other lines give the slots of their items, from the ninth field on, to the part of the second field before its only "@", and end the parse when there is another "@" or no client |
| `ClusterText.ItemsEnd` | src/client/TairClusterAsyncClient.cpp:217-219 | an empty item and a migrating slot end a line |
| `Cluster.ClusterClient.ParseNodesInfo` | src/client/TairClusterAsyncClient.cpp:189-248 | the slots after parsing any text, successful or not, and the result |
| `Cluster.ClusterClient.Init` | src/client/TairClusterAsyncClient.cpp:68-93 | for every text and client: the exact effect and result; after a success every slot has a client, slot by slot that of the last master line for it exactly when some line covers the slot, and some line does if the client had no routes |
| `Cluster.ClusterClient.GetClientByKey` | src/client/TairClusterAsyncClient.cpp:169-172 | the client of the slot of the key |
| `Cluster.ClusterClient.CheckKeyInSameSlot` | src/client/TairClusterAsyncClient.cpp:286-298 | true exactly when all keys have one slot, and then they share one client |
| `Cluster.StaleRoutes` | src/client/TairClusterAsyncClient.cpp:81-89 | after a failed `init` that had assigned all slots, the next one succeeds although its text assigns none |
| `ClusterRoutes.CoveredIff` | src/client/TairClusterAsyncClient.cpp:68-93 | the exact condition: every text with which `init` succeeds covers a slot if and only if the slot had no route before the call |
| `ClusterRoutes.UncoveringText` | src/client/TairClusterAsyncClient.cpp:68-93 | for a slot with a route, a text with which `init` succeeds and which does not mention the slot |
| `ClusterRoutes.BrokenTextParses` | src/client/TairClusterAsyncClient.cpp:189-248 | a concrete text whose parse fails after it has assigned all slots |
| `ClusterRoutes.StaleRun` | src/client/TairClusterAsyncClient.cpp:68-93 | a run on that text and then an empty one: the second `init` succeeds with the routes of the first |

## Left out

- Stralgo.Lcs: for tables of more than 2^32 + 2 cells, the strings for which the walk still finds a longest common subsequence are described by what it reads, not by a condition on the strings.
- Subscriptions.SubscriptionTable.DoPubSubCount: the count of a confirmation and the callback that receives it are not modelled.
- Stralgo.Lcs: running out of memory for the table is not modelled.
- Sha1Stream.Sha1Context.Update: what a copy that does not fit the buffer would do is not modelled.
- Cluster.ClusterClient.Init: clients are known by their address, so two connections to one address made by different runs of `init` are not told apart; what `SimpleAtoi` reads and which connections succeed are parameters.
- PipelineClient.Client.OnConnected: the subscriptions it sends are a parameter; which they are stands in `Subscriptions.SubscriptionTable.Resubscribe`.
- PipelineClient.Client.OnMessage: time stamps and the latency passed to callbacks are not modelled, and the decoder is a list of outcomes.
- PipelineClient.Client.OnSilence: the comparison of time stamps that triggers it is an event.
- PipelineClient.Client.Connect: a call inside the loop is not modelled; while the old connection is up, it would wait for the lock it holds.
- PipelineClient.Client.ReconnectInLoop: an attempt to connect that fails inside the call is an event behind it.
- PipelineClient.Client.OnRecvSubscribed: what the handler of a message does is part of the event; which handler that is stands in `Subscriptions`.
- Executor.EveryRun: that the worker gets its turn is not claimed, only that its steps suffice, and tasks may stay queued at a stop. The busy loop and the cron callbacks do not touch the queue and are not modelled.
- CidrTrie.CidrTrieTree.TrieNodeSearch: values are numbers without a width, and the warning about colliding networks is not modelled.
- Cluster.ClusterClient.CheckKeyInSameSlot: the overload with a separate destination key is the same test with that key first.
- `memtoll`, `ld2string` and the other conversions of `src/common/StringUtil.cpp`: foreign parsers or floating point.
- `Sha1::sha1hex`, `Digest::xorDigest` and `Digest::mixDigest`: thin uses of the hashes.
- LRUMap, TokenBucket, BoundedQueue, BlockingQueue, ConcurrentHashMap, SipHash and Endianconv: independent components that nothing here uses.
- Sockets, event loop, timers and the RESP codec are not part of this model; they appear as events.
- Command forwarding in the client classes, and cluster commands that skip the slot check.
