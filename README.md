# brle: binary run-length encoding, modelled in Dafny

brle (src/brle.h) compresses a sequence of unsigned W-bit words into one-byte
blocks. The words are read least-significant bit first and form one logical
bit stream. Each block is one of three kinds:

- a literal: tag `0x`, carrying 7 raw bits;
- a run of zeros: tag `10`;
- a run of ones: tag `11`.

A run block stores its length minus 8 in its six low bits, so a run has 8 to
71 bits. A run shorter than 71 also stands for one bit of the opposite value
after it, the stuffed terminator, which the encoder consumes with the run.

The project models:

- `bits.dfy` (module `Bits`): W-bit registers as bit sequences, bit 0 first.
  It defines the C++ shift, or, and and complement operators on them, values
  and their low bits, and `countr_zero`/`countr_one` as `RunLength`.
- `format.dfy` (module `Format`): the block format (`pg::brle::detail`). This
  covers the tag constants, `brle8_mode`, `count`, `make_literal`,
  `make_zeros` and `make_ones`. It also defines the bits each block stands for
  (`BlockBits`, `Expand`).
- `words.dfy` (module `Words`): the stream of a word sequence (`Stream`) and
  the complete words of a stream (`Pack`).
- `encoder.dfy` (module `Encoder`):
  - `encode`'s policy, stated on the stream as the function `EncodeBits`.
  - Lemmas for the run thresholds and for bit stuffing.
  - The source's single-pass state machine, as the method `Encode`. It keeps
    the carry register `bits`, the last input word, `bit_count`, the state
    init/zeros/ones and `rlen`. It is proved to emit exactly `EncodeBits` of
    the stream of its input.
- `decoder.dfy` (module `Decoder`):
  - The loop of `decode`, defined once as functions over its state (`Step`,
    `Run`). The refill after a completed word is a parameter:
    - `AsWritten` refills from the block byte after every block, as line 284
      does;
    - `Corrected` refills from the block byte only after a literal and empties
      the register after a run.
  - The method `Decode` follows the source statement by statement, with the
    refill at line 284 corrected. It is proved equal to `Run` with the
    corrected rule, and to write exactly the complete words of the expanded
    stream.
  - `DecodeAsWritten` is the loop with line 284 as written. It writes the same
    words whenever no run block with a terminator ends on a word boundary
    (`AsWrittenClean`).
- `codec.dfy` (module `Codec`):
  - The round trip `decode(encode(ws)) == ws`.
  - The usage example from tests/test.cpp.
  - The `weird` test input, on which decode as written returns a different
    word.

Two behaviours of the code are stated as lemmas:

- 72 equal bits at the end of the input make a count-71 block followed by a
  one-bit literal. A count-71 block consumes no terminator, and the 72nd bit
  is encoded from state init (`Encoder.PastMaxRun`).
- The tests expect the round trip to hold for every input they list,
  including the `weird` one (tests/test.cpp:57-67). For the decoder as
  written it does not hold (see Findings).

## Model

| member | source | states |
|---|---|---|
| Format.Mode | src/brle.h:61-64 | the mode of a block is one of the four tags, and the block lies within its tag's 64 values |
| Format.Count | src/brle.h:66-69 | the run length a block stores is between 8 and 71 |
| Format.MakeLiteral | src/brle.h:71-74 | a literal block has a literal tag and carries the buffer's 7 low bits |
| Format.MakeZeros | src/brle.h:76-80 | for a count in 8..71, the block has the zeros tag and `count` reads the count back |
| Format.MakeOnes | src/brle.h:82-86 | for a count in 8..71, the block has the ones tag and `count` reads the count back |
| Format.RunBlockRebuilt | src/brle.h:61-86 | `make_zeros`/`make_ones` of a run block's own count rebuild the block, so mode and count invert them |
| Format.LiteralBits | src/brle.h:274-278 | a literal block stands for the 7 low bits of the buffer it was made from |
| Format.SameLiteral | src/brle.h:71-74 | buffers with equal 7 low bits make the same literal block |
| Format.RunBlockBits | src/brle.h:229-273 | a run block stands for its run, plus the opposite terminator bit when the count is below 71 |
| Format.BlockBits | src/brle.h:229-278 | every block stands for 7 to 72 bits of the stream |
| Format.Expand | src/brle.h:225-286 | a block sequence stands for 7 to 72 bits per block |
| Format.ExpandAppend | src/brle.h:225-286 | the bits of a block sequence are the bits of its blocks in order |
| Bits.RunLengthSpec | src/brle.h:115-117 | every bit counted by `countr_zero`/`countr_one` has the counted value |
| Bits.RunLengthStops | src/brle.h:115-117 | the counted run is maximal: the bit after it differs, or the register ends |
| Bits.RunLength | src/brle.h:115-117 | `countr_zero`/`countr_one` never exceed the register width |
| Words.StreamLength | src/brle.h:106-113 | every input word adds W bits to the stream |
| Words.Pack | src/brle.h:280-285 | the decoder's words are W-bit values, and they cover the stream except for fewer than W trailing bits |
| Words.PackLength | src/brle.h:280-285 | the number of words written is the stream length divided by W, rounded down |
| Words.PackStream | src/brle.h:280-285 | cutting the stream of whole words, followed by fewer than W extra bits, gives back the words |
| Encoder.EncodeBitsExpand | src/brle.h:91-211 | the encoder's blocks expand to its input stream plus at most 6 padding bits |
| Encoder.EncodeBitsBound | src/brle.h:134-138 | at most one block per 7 input bits, rounded up, because every block consumes at least 7 bits or ends the input |
| Encoder.StuffedRun | src/brle.h:141-160 | a run of 8..70 bits followed by the opposite bit becomes one run block, and the opposite bit is consumed as its terminator |
| Encoder.ShortRun | src/brle.h:121-138 | up to 7 equal bits are not a run: they make one literal |
| Encoder.WholeRun | src/brle.h:121-160 | 8 to 71 equal bits at the end of the input make exactly one run block of that count |
| Encoder.MaxRun | src/brle.h:144-152 | a 71-bit run makes a maximal block, takes no terminator, and encoding resumes in state init |
| Encoder.PastMaxRun | src/brle.h:144-152 | 72 equal bits make a count-71 block followed by a one-bit literal |
| Encoder.LoneBit | src/brle.h:134-138 | a single remaining bit becomes a literal of value 0 or 1 |
| Encoder.OpensRun | src/brle.h:121-133 | more than 7 equal leading bits open a run of that value |
| Encoder.StartRun | src/brle.h:121-133 | opening a run with the k equal bits in the register leaves the same blocks still to be emitted |
| Encoder.RunSkip | src/brle.h:141-147 | consuming more bits of a pending run below 71 changes nothing in what is emitted |
| Encoder.FullRun | src/brle.h:148-152 | reaching 71 bits emits the maximal block, and the rest is encoded from state init |
| Encoder.EndRun | src/brle.h:154-159 | the first opposite bit ends the run: its block is emitted and that bit is consumed |
| Encoder.LoadWindow | src/brle.h:108-113 | or-ing the next word in at `bit_count` puts its bits right after those already buffered |
| Encoder.RunInWindow | src/brle.h:115-117 | `min(countr_zero(bits), bit_count)` is the run in the stream, capped by the register width and `bit_count` |
| Encoder.LiteralInWindow | src/brle.h:134-138 | `make_literal(bits)` gives the literal of the next 7 stream bits, zero-padded at the end of the input |
| Encoder.ShiftWindow | src/brle.h:188-194 | shifting out `count` bits and re-or-ing the buffered input word leaves the next stream bits in the register |
| Encoder.Realign | src/brle.h:190-193 | the last loaded word, moved by `input_shift` in either direction, stays a W-bit value (its place in the window is stated by Encoder.ShiftWindow) |
| Encoder.EmptyWindow | src/brle.h:184-187 | a cleared register holds no pending bits |
| Encoder.StartStep | src/brle.h:121-139 | in state init, a step consumes 1..`bit_count` bits and emits what the policy emits for them |
| Encoder.RunStep | src/brle.h:141-180 | in a run, a step extends the run, emits the maximal block, or ends the run at its terminator, as the policy does |
| Encoder.Consume | src/brle.h:115-181 | one pass of the switch consumes 1..`bit_count` bits, keeps `rlen` in 8..70 while a run is pending, and emits the next blocks of the policy |
| Encoder.Refill | src/brle.h:108-113 | after loading, the register holds a full word of pending bits, or all that is left of the input |
| Encoder.Advance | src/brle.h:183-194 | after a step, the register holds the bits after the consumed ones and `bit_count` drops by `count` |
| Encoder.Round | src/brle.h:106-195 | one loop iteration makes progress and emits the next blocks of the policy for the stream |
| Encoder.Flush | src/brle.h:197-210 | at the end, a pending run is emitted as one block of its length, and in state init nothing is emitted |
| Encoder.Encode | src/brle.h:91-211 | the blocks are the policy's blocks for the words' stream, they expand back to that stream plus fewer than 7 bits, and there are at most ceil(N·W/7) of them (none for no input) |
| Encoder.EncodeStream | src/brle.h:91-211 | the same expansion and block bound, stated for the stream of any word sequence |
| Decoder.Spill | src/brle.h:284 | `in >> (7 - bit_count)` stored back is a W-bit register (what it holds is stated by Decoder.SpillLiteral and Decoder.StraySpill) |
| Decoder.EmitFilled | src/brle.h:236 | a register whose W low bits are all pending is written out as the word of exactly those W bits |
| Decoder.DrainFilled | src/brle.h:237 | after a word of a run is written, `bits = 0` (or `data_mask`) is the register of the remaining pending bits, which all equal the run's bit |
| Decoder.FilledOnes | src/brle.h:252 | or-ing `data_mask << bit_count` fills the register above the pending bits with ones |
| Decoder.FilledClear | src/brle.h:262 | and-ing with `~(data_mask << bit_count)` clears the register above the pending bits |
| Decoder.FilledMark | src/brle.h:240-246 | or-ing `1 << bit_count` appends the one-bit terminator of a zeros run |
| Decoder.FilledLiteral | src/brle.h:276 | or-ing a literal at `bit_count` appends its 7 bits to the pending bits |
| Decoder.SpillLiteral | src/brle.h:280-285 | after a literal completes a word, `in >> (7 - bit_count)` holds exactly the literal bits that did not fit |
| Decoder.StraySpill | src/brle.h:284 | after a run block completes a word, the statement as written leaves the value 1 in the register instead of 0 |
| Decoder.DrainLoop | src/brle.h:234-238 | the inner loop writes one word per W pending bits and leaves fewer than W: words times W plus the bits left equal the bits in |
| Decoder.ZerosBranch | src/brle.h:229-247 | the zeros branch accounts for the run and its terminator: words times W plus pending bits grow by the block's expanded length, at most W bits stay pending, and fewer than W after a count-71 run |
| Decoder.OnesBranch | src/brle.h:248-273 | the ones branch accounts for the run and its terminator in the same way |
| Decoder.LiteralBranch | src/brle.h:274-278 | the literal branch writes no word and adds the block's 7 bits to `bit_count` |
| Decoder.WordCheck | src/brle.h:280-285 | under either refill rule, fewer than W bits stay pending and words times W plus pending bits is unchanged |
| Decoder.Step | src/brle.h:227-285 | one block leaves fewer than W bits pending, and words times W plus pending bits grow by the block's expanded length |
| Decoder.Run | src/brle.h:225-286 | the loop accounts for every expanded bit: words times W plus pending bits equal the starting count plus the expansion's length |
| Decoder.AsWrittenCount | src/brle.h:225-288 | decode as written writes as many words as the corrected decoder: the expanded length divided by W |
| Decoder.DrainAccounts | src/brle.h:234-238 | the inner loop writes exactly the leading whole words of the pending bits and keeps the rest, with the run's bit above them |
| Decoder.ZerosAccounts | src/brle.h:229-247 | from a register holding the pending bits, a zeros block and the check after it write the stream's next whole words and keep the rest pending; corrected always, as written unless the run has a terminator and ends on a word boundary |
| Decoder.OnesAccounts | src/brle.h:248-273 | the same for a ones block |
| Decoder.LiteralAccounts | src/brle.h:276-284 | a literal appends its 7 bits to the register; when they complete a word, the word written is the first W pending bits and the spill is exactly the bits past them |
| Decoder.LiteralWordAccounts | src/brle.h:274-285 | after a literal and the check, under either rule, the words written and the bits pending are the stream so far |
| Decoder.RunWordAccounts | src/brle.h:280-285 | after a run block completes a word, the corrected refill leaves no pending bits and keeps stream and words in step |
| Decoder.StepAccounts | src/brle.h:227-285 | one block extends the stream accounted for by its expansion; corrected always, as written unless it is a run with a terminator ending on a word boundary |
| Decoder.StepPending | src/brle.h:227-285 | after a block, the pending bits are the stream's bits past its last word boundary, and their number is the block's end offset within its word |
| Decoder.RunAccounts | src/brle.h:225-286 | the loop over any blocks accounts for their whole expansion; as written, when no terminated run ends on a word boundary |
| Decoder.DecodedWords | src/brle.h:213-289 | the loop writes exactly the complete W-bit words of the expanded stream; corrected for every block sequence, as written under the same condition |
| Decoder.AsWrittenClean | src/brle.h:213-289 | decode as written is right on every block sequence in which no run block with a terminator ends on a word boundary |
| Decoder.Drain | src/brle.h:234-238 | the inner loop, as a method, computes exactly what DrainLoop does |
| Decoder.ZerosBlock | src/brle.h:229-247 | the zeros branch, as a method, computes exactly ZerosBranch |
| Decoder.OnesBlock | src/brle.h:248-273 | the ones branch, as a method, computes exactly OnesBranch |
| Decoder.LiteralBlock | src/brle.h:274-278 | the literal branch, as a method, computes exactly LiteralBranch |
| Decoder.Complete | src/brle.h:280-285 | the check for a completed word computes WordCheck with the corrected refill |
| Decoder.DecodeBlock | src/brle.h:227-285 | one iteration of the loop computes Step with the corrected refill |
| Decoder.Decode | src/brle.h:213-289 | the words written are those of Run with the corrected refill, and they are exactly the complete W-bit words of the expanded block stream |
| Decoder.DecodeDone | src/brle.h:286-288 | after the last block, the words written are all the words, and they are the complete words of the expansion |
| Codec.RoundTrip | tests/test.cpp:24-41 | the complete words of the expansion of the encoder's blocks are the input words |
| Codec.EncodeDecode | tests/test.cpp:36-40 | decoding the encoder's output gives back the input words, for every width and input |
| Codec.ExampleEncode | tests/test.cpp:165-172 | the usage example's eight bytes encode to the three blocks 0xCC 0x9C 0x2A |
| Codec.ExampleDecode | tests/test.cpp:173-180 | those three blocks decode back to the eight bytes |
| Codec.ExampleAsWritten | tests/test.cpp:173-180 | decode as written also gives back the eight bytes from 0xCC 0x9C 0x2A, since no terminated run ends on a word boundary |
| Codec.ExampleCounts | tests/test.cpp:173-191 | those three blocks decode to 8 words of 8 bits and to 4 words of 16 bits, both corrected and as written |
| Codec.WeirdEncode | tests/test.cpp:55 | the weird input encodes to a 23-bit zeros run and two literals: 0x8F 0x40 0x00 |
| Codec.WeirdDecode | tests/test.cpp:67 | the corrected decoder gives the weird input back |
| Codec.WeirdAsWritten | src/brle.h:280-285 | decode as written turns 0x8F 0x40 0x00 into 00 00 80 41 |
| Codec.RunStepAsWritten | src/brle.h:229-247 | as written, the block 0x8F from an empty register writes 00 00 80 and leaves the value 1 in the register |
| Codec.WeirdRoundTripAsWritten | tests/test.cpp:67 | as written, the round trip of the weird input fails |

## Left out

- util/brle.cpp is not part of this model. It is the command-line front end: file and stream I/O and argument parsing.
- Iterators and output sinks are not modelled. Input is a sequence of words; output is the returned sequence of blocks or words.
- The `static_assert`s on the template parameters are not modelled. The word width is restricted to 8, 16, 32 or 64 (`Words.IsWidth`), so `bool`, whose width is 1, is not covered.
- Byte order of multi-byte words is not modelled. The model works on word values and their bit order only.
- Integer promotion of narrow words is not modelled separately. Each register operation is truncated to W bits, which is what storing the result back into the W-bit variable does.
- A shift by the full width W is taken to give 0, the intended value. In C++ it is undefined behaviour for 32- and 64-bit words. It happens at src/brle.h:192 when W equal bits, zeros or ones, are consumed at once from a 32- or 64-bit register with bits still pending (e.g. tests/test.cpp:107). Narrower words are promoted to `int`, where the same shift is defined and gives 0 once truncated.
- The `assert`s in `make_zeros`, `make_ones` and at lines 147 and 168 become preconditions and loop invariants, proved to hold.
- src/brle.h has only the bulk `encode` and `decode`, and both are modelled.
- The test harness mechanics (`memcmp` of the buffers, prefilled decode buffers) are not modelled. The tests are modelled as statements about the word sequences.
- Decoder.DecodeAsWritten: carries no contract of its own, being the loop as written. Decoder.AsWrittenCount, Decoder.AsWrittenClean and the Codec lemmas about the example and the weird input state its properties.
- Encoder.EncodeBits: carries no contract of its own, being the encoder's policy on the stream. Encoder.EncodeBitsExpand, Encoder.EncodeBitsBound and the run and literal lemmas state its properties, and Encoder.Encode is proved to emit it.
- Encoder.RunBlocks: carries no contract of its own. Encoder.RunBlocksExpand, Encoder.RunBlocksBound, Encoder.RunSkip, Encoder.FullRun and Encoder.EndRun state its properties.
- Words.Stream: carries no contract of its own, being the definition of the bit stream. Words.StreamLength, Words.StreamAppend and Words.PackStream state its properties.

## Findings

| source | as written | input that shows it | evidently intended | confidence | as-written member | corrected member |
|---|---|---|---|---|---|---|
| src/brle.h:284 | after any block that completes a word, the register is refilled with `in >> (7 - bit_count)`, also after a run block. The run tag's top bit is then left in bit 0 of the next word (Decoder.StraySpill). | W = 8, words 00 00 80 40 (the `weird` test, tests/test.cpp:55). They encode to 8F 40 00 and decode as written to 00 00 80 41. | refill from `in` only after a literal; after a run, the register holds only zero bits, so `decode(encode(ws)) == ws` for every input. As written, decode is right on every input in which no such run ends on a word boundary (Decoder.AsWrittenClean). | not executed | Codec.WeirdRoundTripAsWritten | Decoder.Decode |
