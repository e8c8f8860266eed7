# OpenSoC verification

Dafny models of the accelerators, the memory image loader, the ECC memory, the programmable I/O block, the softmax and
im2col references and the I2C master of OpenSoC, with proofs of what they compute. Verify everything with
`dafny verify dfyconfig.toml`.

## What is modelled

**Accelerator engines** (`Conv2d`, `Conv1d`, `Gemm`, each with an `...Engine` file). `Clock` is one rising edge as a
function of the registers; `Step` adds memory behind a DMA port whose grant, response and stream-ready signals, and the
data an unmapped address returns, are free in every cycle; `Run` is any number of steps. The `...Engine` classes are the
same registers updated in place in the form of the RTL, with the line buffer, shift register, skew chain and 8 x 8 array
as arrays, and their `Clock` is proved to be that function. The specification is a nested sum over the image; the
reference loops of the C tests are proved to compute the same sum.

`Int8Runs` states what the engines compute once more with nothing of them in the statement: memory holds int8 numbers,
and the outputs are plain sums of products.

**Memory image loader** (`RangedMap`, `Staging`, `MemLoad`). The generic interval map, segment merging with newest-wins,
flattening, registering memory areas, routing segments to them, and word-by-word writing with zero extension, against a
map from addresses to bytes.

**ECC memory** (`EccBits`, `Secded`, `EccMem`). Bit fields at unaligned offsets in a byte buffer, the parity loop and its
seven masks, and 39-bit code words packed 1 to 8 to a row.

**Programmable I/O** (`Pio`, `PioSm`, `PioSmEngine`, `PioNumbers`, `PioIsa`, `PioSlave`, `PioFifo`, `PioSystem`,
`PioAlloc`). Pin and shift helpers, the nine-instruction state machine with side-set, delays, dividers, forced and
pending instructions; its instruction set once more on numbers, register by register; the I2C receiver program; the
four-word FIFOs, the machine joined to its FIFOs and to the interrupt flags through their registered handshakes, and the
instruction memory allocator of the SDK.

**Softmax and im2col** (`Softmax`, `Im2col`). The C reference programs, their table and their loops.

**I2C master** (`I2c`, `I2cEngine`, `I2cBus`). The bit-level state machine on a bus where anybody may pull SDA down in
any clock and the CPU writes what it likes, and a bus monitor that knows nothing of it.

**The two together** (`Loopback`). The I2C master and the receiver program of the PIO on one bus.

`Words` holds machine words, sums of products, the memory and row-major index arithmetic.

## How to read the models

- Registers keep their RTL names in short form. Additions that can wrap in 32 bits are written `Add32` and `Sub32`;
  narrower counters wrap explicitly. `Cell(row, col, w)` is `row * w + col`.
- A byte or a register that is taken apart into bits is the sequence of its bits, lowest first. The line buffer is one
  array with pixel (slot, col) at `64 * slot + col`; the 64 cells of the matrix engine are two arrays of 64.
- Memory maps byte addresses to words. Read data is what memory holds when the response comes. There is one response for
  each grant, no register write while an engine is busy, and no buffer wraps past the end of the 32-bit address space.
- Buffers may overlap. `ReadAs(c, m0, mi)` says that `mi` holds the input as the run reads it: each word the original
  one unless an output has landed on it before its turn. `EveryRunComputes` is about `mi`; `AsRead` gives one for every
  overlap. `NoClobber` says that no output lands on an input word still to be read, and then `mi` is the original
  (`EveryRunConvolves`, `EveryRunMultiplies`). `AlwaysRight` says that every run that ends leaves the outputs of the
  original input; `OverlapExactly` says for which destinations that is so.
- In `I2c` and `PioSystem` a run is given with everything others do in it: `o.pull(t)` is true if somebody else pulls SDA
  down in clock t, and `o.cpu(t)` is what the CPU writes then; an `Outside`, or the `Others` of `PioSystem`, is one clock
  of FIFO users or of other machines and the CPU.
- A `Job` of `I2c` is one byte: how it begins, the byte, read or write, with STOP or not, the acknowledge bit and the
  prescale. `Requested(r, job)` says that the registers ask for it; `Programmed` gives the CPU writes that bring that about.
- In `PioSlave` the attempts of a run are the clocks in which a word is carried out, and a `Slot` is what they see of one
  bit: SCL low at least twice, then high at least twice. `Follow` is the receiver along a list of attempts.
- A product in pe_cell.sv is read at its full 16 bits. MAT_M is four bits wide, and 0 stands for 16 rows, as the counter
  compare makes it. PIO counters of six bits wrap at 64, also inside the autopush comparison.
- `Emplace` takes its merge function as a value; the method `MergeSegments` is proved equal to the value it is given.

## Where code and documentation differ

The models follow the code.

- conv1d.sv:19-20 says that in same mode zeros are as good as loaded; GO leaves the shift register as it was
  (`Conv1d.SameModeExactly`, `Conv1d.RunsContinue`). conv1d.sv:8 gives the formula with the kernel not reversed; the code
  and its test apply weight 0 to the newest sample.
- conv2d.sv:25 allows 64 columns; in same mode at 64 columns the column past the image is column 0
  (`Conv2d.AfterReset`).
- result_drain.sv:11-12 relies on zero weights in unused rows; the zero activations fed to them suffice
  (`Gemm.PulseMultiplies`). The comment in systolic_array.sv:23 speaks of one enable pulse for each k; there is one for
  each row of A.
- i2c_controller.sv:181-185 means to stop on lost arbitration; the assignments after it go on
  (`I2c.ArbitrationGoesOn`, `I2c.Waveform`).
- i2c_controller.sv:245-248 clears the pending flag a clock after the machine enters WAIT_NEXT; in that clock the flag that
  asked for the byte is still up, and the byte is sent again (`I2c.SentTwice`, `I2cBus.TwiceOnBus`). A START asked for in
  WAIT_NEXT lets SDA go and raises SCL in one step and never pulls SDA down while SCL is high, so no START is seen
  (i2c_controller.sv:288-296, `I2cBus.FrameSeen`).
- i2c_slave.pio.h:19 puts the received byte in bits 31:24; shifting left leaves it in bits 7:0, as the helpers at the
  end of the file have it (`PioSlave.WordIs`). i2c_slave.pio.h:25-26 has the program detect START for every byte; it does
  so once, and takes a STOP for a bit (`PioSlave.StopIsABit`).
- A write of a pin register replaces it whole, so a side-set of the same register in the same clock is lost
  (pio_sm.sv:465-478 and 604-606, `PioIsa.CarryRegisters`). A word that OUT EXEC or MOV EXEC leaves while it is itself such
  a word is dropped (pio_sm.sv:823-825).
- pio_sm.sv:751-757 takes the flag of an IRQ WAIT to be registered at the second attempt, and pio.md:322 promises that
  it stalls until another entity clears the flag. The pulse and the flag are two registers: at divider 0 or 1 the second
  attempt comes one clock too early (`PioSystem.IrqWaitExactly`), and a CPU write to the flags in the clock of the pulse
  takes its place (`PioSystem.WriteReleases`).
- pio.md:146 has autopush stall on a full RX FIFO. The stalled IN has shifted already and shifts again at its next
  attempt; a full word is lost (`PioSm.AutopushExactly`, `PioSm.WordIsLost`).
- pio.md:270 has PULL take a word from TX. The pull pulse is registered, so attempts in consecutive clocks see the same
  head twice (`PioSystem.PullLoopExactly`).
- dpi_memutil.cc:354 asserts that the index of a clashing area is not zero, which fails for the area registered first; the
  model reports the clash.
- The im2col test runs the matrix engine with K = 9; the array has eight rows, and the model covers K in 1..8.

## Model

| member | source | states |
|---|---|---|
| `Conv2d.EveryRunConvolves` | hw/ip/conv2d/rtl/conv2d.sv:327-582 | Every run from GO, for every image, kernel, size, starting line buffer, handshake delay and amount of memory beyond the image: BUSY is the opposite of DONE in every state; when DONE is up, memory is the old memory with exactly the output words in place (or, streaming, memory is untouched and the beats are the outputs with tlast on the last only); and DONE is up once the environment has been ready for a fixed number of cycles |
| `Conv2d.EveryRunComputes` | hw/ip/conv2d/rtl/conv2d.sv:327-582 | The same for every overlap of the buffers: what is in place when DONE is up is the convolution of the image as this run reads it, each pixel being the original one unless an output has landed on it by the time it is read |
| `Conv2d.AsRead` | hw/ip/conv2d/rtl/conv2d.sv:327-582 | For every memory, kernel, line buffer and overlap there is such an image as read, because an output depends only on pixels read before it is due |
| `Conv2d.StepKeeps` | hw/ip/conv2d/rtl/conv2d.sv:327-582 | One clock edge under any grant, response and ready keeps the invariant (wr_remaining is the number of outputs not yet delivered, so the fallback exits to IDLE with BUSY set are never taken) and lowers the remaining work by one exactly when the engine is served |
| `Conv2d.RunKeeps` | hw/ip/conv2d/rtl/conv2d.sv:327-582 | The invariant holds in every state of every run, and each ready cycle brings the end one step nearer |
| `Conv2d.ValidModeConvolves` | hw/ip/conv2d/rtl/conv2d.sv:202-231 | Valid mode: output (r, k) is the nine-term convolution sum of the reference, whatever the line buffer held at GO |
| `Conv2d.SameModeConvolves` | hw/ip/conv2d/rtl/conv2d.sv:202-231 | Same mode: every output is the zero-padded convolution sum, provided the engine sees zeros where padding belongs |
| `Conv2d.SameModeExactly` | hw/ip/conv2d/rtl/conv2d.sv:202-231 | Same mode meets the reference for every kernel if and only if the line buffer shows zero in row -1 and in the column past the image |
| `Conv2d.PaddingShows` | hw/ip/conv2d/rtl/conv2d.sv:202-231 | A nonzero value in a padding place: a concrete kernel and output that come out wrong |
| `Conv2d.AfterReset` | hw/ip/conv2d/rtl/conv2d.sv:227-227 | After SOFT_RESET same mode is right for widths up to 63; at width 64 the column past the image is column 0, so it is right exactly when that column of the image is zero |
| `Conv2d.OverlapExactly` | hw/ip/conv2d/rtl/conv2d.sv:407-432 | Every run, for every image, kernel, line buffer and handshake, ends with the outputs of the original image if and only if the destination starts no more than the slack past the source, or past the image (in place included): 2W+2 words in valid mode, W in same mode (W+1 for images of one or two rows) |
| `Conv2d.OverlapGoesWrong` | hw/ip/conv2d/rtl/conv2d.sv:407-432 | A destination inside the image past the slack: some image, kernel and schedule end with DONE up and wrong outputs in memory |
| `Conv2d.StreamIsDma` | hw/ip/conv2d/rtl/conv2d.sv:407-447 | A finished stream run has sent, beat by beat, exactly the words a finished memory run of the same job stores, with the last-beat mark on the last only, and left memory alone |
| `Conv2d.PixelFound` | hw/ip/conv2d/rtl/conv2d.sv:343-378 | The response to a read is the pixel as this run reads it, although outputs are being written |
| `Conv2d.ReadsAhead` | hw/ip/conv2d/rtl/conv2d.sv:407-432 | Outputs written before a pixel is read all lie below it by the slack |
| `Conv2d.WriteThrough` | hw/ip/conv2d/rtl/conv2d.sv:224-228 | The window with the write-through of the pixel being written is the window of the line buffer after the write |
| `Conv2d.HoldsWritten` | hw/ip/conv2d/rtl/conv2d.sv:385-390 | Writing the next pixel into slot row mod 3 keeps the line buffer equal to the newest three rows |
| `Conv2d.HoldsNextRow` | hw/ip/conv2d/rtl/conv2d.sv:528-532 | Once a row is complete the line buffer is ready for the next, its oldest row becoming free |
| `Conv2d.TapSeen` | hw/ip/conv2d/rtl/conv2d.sv:202-231 | With every pixel up to (row, col) stored, each window element is the specified one, virtual column and bottom row included |
| `Conv2d.WindowIsTaps` | hw/ip/conv2d/rtl/conv2d.sv:206-231 | The whole window fed to the PE is the specified nine taps |
| `Conv2d.SlideHolds` | hw/ip/conv2d/rtl/conv2d.sv:382-390 | A response in the slide phase leaves the line buffer correct up to the current position, also at virtual positions, and whatever the fetches of the virtual bottom row return |
| `Conv2d.DueNext` | hw/ip/conv2d/rtl/conv2d.sv:517-536 | The count of outputs due grows by one exactly at positions past the lag, and the last output falls on the last position |
| `Conv2d.Sizes` | hw/ip/conv2d/rtl/conv2d.sv:152-157 | The counts latched at GO are the true output height, width and total, all positive, with no 32-bit wrap |
| `Conv2d.ControlFill` | hw/ip/conv2d/rtl/conv2d.sv:349-368 | The fill phase ends exactly after lag rows, and each response lowers the remaining work by one |
| `Conv2d.ControlSlide` | hw/ip/conv2d/rtl/conv2d.sv:382-405 | The slide phase goes to the write exactly when an output is due, never to IDLE |
| `Conv2d.ControlRetire` | hw/ip/conv2d/rtl/conv2d.sv:420-447 | After an output the engine advances, or finishes exactly when it was the last |
| `Conv2d.StartEstablishes` | hw/ip/conv2d/rtl/conv2d.sv:484-498 | GO establishes the invariant from any leftover registers and line buffer |
| `Conv2d.AddressInImage` | hw/ip/conv2d/rtl/addr_gen.sv:20-20 | The read address of a pixel is its word in the image |
| `Conv2d.PeLoop` | hw/ip/conv2d/rtl/conv2d_pe.sv:20-29 | The product loop and sum loop give the nine-term dot product, at most 9 * 2^14 in magnitude, so no 16- or 32-bit register overflows |
| `Conv2d.RefValid` | sw/tests/conv2d_test/conv2d_test.c:43-57 | The reference loops leave the valid convolution in every element |
| `Conv2d.RefSame` | sw/tests/conv2d_test/conv2d_test.c:65-83 | The reference loops leave the zero-padded convolution in every element |
| `Conv2dEngine.LineBuffer.Edge` | hw/ip/conv2d/rtl/line_buffer.sv:32-44 | The 3 x 64 store: cleared, or one pixel written and no other changed |
| `Conv2dEngine.Engine.Clock` | hw/ip/conv2d/rtl/conv2d.sv:327-582 | The clocked registers move as the cycle function that the run theorems are about |
| `Conv2dEngine.Engine.WriteGo` | hw/ip/conv2d/rtl/conv2d.sv:484-498 | GO latches the counts and starts the fill |
| `Conv2dEngine.Engine.WriteSoftReset` | hw/ip/conv2d/rtl/conv2d.sv:477-481 | SOFT_RESET when idle clears the flags and the line buffer and nothing else |
| `Conv1d.EveryRunConvolves` | hw/ip/conv1d/rtl/conv1d.sv:265-387 | Every run from GO, for every input, kernel of 1 to 16 taps, handshake and shift register content: when DONE is up the outputs are exactly in place and nothing else changed (or were streamed, tlast on the last only); DONE is up after enough ready cycles; BUSY is its opposite; a zero LENGTH only raises DONE |
| `Conv1d.EveryRunComputes` | hw/ip/conv1d/rtl/conv1d.sv:265-387 | The same for every overlap of the buffers: what is in place is the convolution of the input as this run reads it, and the shift register is left holding its newest sixteen samples |
| `Conv1d.AsRead` | hw/ip/conv1d/rtl/conv1d.sv:265-387 | For every memory, kernel and overlap there is such an input as read |
| `Conv1d.StepKeeps` | hw/ip/conv1d/rtl/conv1d.sv:265-387 | One clock edge keeps the invariant and lowers the remaining work exactly when served |
| `Conv1d.RunKeeps` | hw/ip/conv1d/rtl/conv1d.sv:265-387 | The invariant holds in every state of every run |
| `Conv1d.ValidModeConvolves` | sw/tests/conv1d_test/conv1d_test.c:54-64 | Valid mode: out[n] is the sum of x[n+K-1-k] * w[k], whatever the shift register held before |
| `Conv1d.SameModeConvolves` | sw/tests/conv1d_test/conv1d_test.c:72-84 | Same mode: out[n] is the sum of x[n-k] * w[k] with zeros to the left, when the first K-1 stages are clear |
| `Conv1d.SameModeExactly` | hw/ip/conv1d/rtl/conv1d.sv:340-352 | GO does not clear the shift register: same mode meets the reference for every kernel if and only if its first K-1 stages are zero |
| `Conv1d.StaleStageShows` | hw/ip/conv1d/rtl/conv1d.sv:340-352 | A nonzero stage: a concrete kernel whose first output is wrong |
| `Conv1d.RunsContinue` | hw/ip/conv1d/rtl/conv1d.sv:340-352 | Two runs, the second in same mode and started from the registers the first one left: it delivers the convolution of the two inputs joined, whatever kernel, memory and pointers were set in between |
| `Conv1d.OverlapExactly` | hw/ip/conv1d/rtl/conv1d.sv:293-305 | Every run, for every input, kernel, shift register and handshake, ends with the outputs of the original input if and only if the destination starts at most K-1 words (same mode: 0) past the source, or past the input |
| `Conv1d.OverlapGoesWrong` | hw/ip/conv1d/rtl/conv1d.sv:293-305 | A destination inside the input past the lag: some input, kernel and schedule end with DONE up and wrong outputs in memory |
| `Conv1d.StreamIsDma` | hw/ip/conv1d/rtl/conv1d.sv:283-311 | A finished stream run has sent, beat by beat, exactly the words a finished memory run of the same job stores, with the last-beat mark on the last only |
| `Conv1d.ReadFinds` | hw/ip/conv1d/rtl/conv1d.sv:277-291 | The response to a read is the sample as this run reads it |
| `Conv1d.ShiftedHistory` | hw/ip/conv1d/rtl/conv1d.sv:154-167 | Shifting a sample in turns the newest sixteen samples before it into the newest sixteen with it |
| `Conv1d.ReadKeeps` | hw/ip/conv1d/rtl/conv1d.sv:174-189 | The clock in which a sample arrives leaves, through the bypass of the shift register, the output that is due, or the history with the sample in it |
| `Conv1d.PeLoop` | hw/ip/conv1d/rtl/conv1d_pe.sv:31-44 | The masked product loop gives the dot product over the active taps, within 16 * 2^14, so the 32-bit sum is the integer sum |
| `Conv1d.RefConvValid` | sw/tests/conv1d_test/conv1d_test.c:54-64 | The reference loops leave the valid convolution |
| `Conv1d.RefConvSame` | sw/tests/conv1d_test/conv1d_test.c:72-84 | The reference loops leave the causal zero-padded convolution |
| `Conv1dEngine.ShiftReg.Edge` | hw/ip/conv1d/rtl/conv1d_shift_reg.sv:33-42 | In-place shift: stage k becomes old stage k-1, stage 0 the new sample; clear zeroes all |
| `Conv1dEngine.Engine.Clock` | hw/ip/conv1d/rtl/conv1d.sv:265-387 | The clocked registers move as the cycle function that the run theorems are about |
| `Conv1dEngine.Engine.WriteSoftReset` | hw/ip/conv1d/rtl/conv1d.sv:333-338 | SOFT_RESET when idle clears flags, counters and the shift register |
| `Conv1dEngine.Engine.WriteGo` | hw/ip/conv1d/rtl/conv1d.sv:341-352 | GO loads pointers and counts, or just raises DONE for zero LENGTH |
| `Gemm.EveryRunMultiplies` | hw/ip/gemm/rtl/gemm.sv:263-415 | Every run from GO, for every A and B, K and N in 1..8, handshake and leftover row buffer, skew chain, accumulators and unused weights: when DONE is up C = A * B is exactly in place; DONE is up after Rows * (9 + 2K + 2N) ready cycles; BUSY is its opposite |
| `Gemm.EveryRunComputes` | hw/ip/gemm/rtl/gemm.sv:263-415 | The same for every overlap of the buffers: what is in place is the product of A as this run reads it |
| `Gemm.AsRead` | hw/ip/gemm/rtl/gemm.sv:263-415 | For every memory, weights and overlap there is such a matrix as read |
| `Gemm.EnablePulse` | hw/ip/gemm/rtl/gemm.sv:156-174 | At the enable pulse row j of the array sees A[m][j], or 0 for j >= K |
| `Gemm.PulseMultiplies` | hw/ip/gemm/rtl/pe_cell.sv:34-50 | The pulse leaves A[m][k] * B[k][n] in cell (k, n), and 0 in rows beyond K whatever weights they hold |
| `Gemm.DrainIs` | hw/ip/gemm/rtl/result_drain.sv:26-39 | The chained column adders give the dot product of row m of A and column n of B, with no 32-bit overflow |
| `Gemm.WriteData` | hw/ip/gemm/rtl/gemm.sv:314-320 | The word offered for writing, and its address, are those of the next output |
| `Gemm.SkewInIsFeed` | hw/ip/gemm/rtl/gemm.sv:159-169 | While the chain is fed in reverse order each sample is the matching element of row m, zero past K |
| `Gemm.StepKeeps` | hw/ip/gemm/rtl/gemm.sv:263-415 | One clock edge keeps the invariant and lowers the remaining work exactly when served |
| `Gemm.RunKeeps` | hw/ip/gemm/rtl/gemm.sv:263-415 | The invariant holds in every state of every run |
| `Gemm.ElementFound` | hw/ip/gemm/rtl/gemm.sv:291-305 | The response to a read is the element of A as this run reads it |
| `Gemm.OverlapExactly` | hw/ip/gemm/rtl/gemm.sv:291-334 | Every run, for every A, B and handshake, ends with the product of the original A if and only if the destination starts at most the slack past the source, or past A, or there is one row: the slack is K - N words if N <= K and (R-1)(K-N), which is negative, if not |
| `Gemm.AnyClash` | hw/ip/gemm/rtl/gemm.sv:291-334 | An output of one row that lands on an element of a later row: some A, B and schedule end with DONE up and a wrong product in memory |
| `Gemm.InPlaceExactly` | hw/ip/gemm/rtl/gemm.sv:291-334 | With dst = src every run ends right if and only if N <= K or there is one row |
| `GemmEngine.DataSkew.Edge` | hw/ip/gemm/rtl/data_skew.sv:34-49 | Seven registers shifted: tap j is the input of j cycles ago |
| `GemmEngine.SystolicArray.SetWeight` | hw/ip/gemm/rtl/systolic_array.sv:51-69 | A weight write changes the addressed cell only |
| `GemmEngine.SystolicArray.Edge` | hw/ip/gemm/rtl/pe_cell.sv:34-50 | All 64 accumulators are cleared, or each adds its row input times its weight, or none changes |
| `GemmEngine.SystolicArray.Drained` | hw/ip/gemm/rtl/result_drain.sv:26-39 | The chained adders compute the 32-bit column sum |
| `GemmEngine.Engine.LoadWeight` | hw/ip/gemm/rtl/gemm.sv:151-153 | WEIGHT_ADDR then WEIGHT_DATA set one weight, at the low six bits of the address, and leave the run state alone |
| `GemmEngine.Engine.Clock` | hw/ip/gemm/rtl/gemm.sv:263-415 | The clocked registers move as the cycle function that the run theorems are about |
| `GemmEngine.Engine.Dma` | hw/ip/gemm/rtl/gemm.sv:274-338 | The DMA port drives the request the cycle function names |
| `GemmEngine.Engine.WriteGo` | hw/ip/gemm/rtl/gemm.sv:362-370 | GO clears the counters and starts |
| `Words.LowByte` | hw/ip/conv1d/rtl/conv1d.sv:165-165 | The decoding of a sample is the number in -128..127 that is congruent to the word modulo 256 |
| `Int8Runs.Conv1dValid` | sw/tests/conv1d_test/conv1d_test.c:54-64 | If memory holds the int8 numbers v(0), v(1), ... as words, every run in valid mode leaves (or streams) the plain sums of v(n+K-1-k) * w[k], and is done after enough ready cycles; no decoding and no function of the engine is in the statement |
| `Int8Runs.Conv1dSame` | sw/tests/conv1d_test/conv1d_test.c:72-84 | The same for same mode from clear stages: the sums of v(n-k) * w[k] with zeros before the input |
| `Int8Runs.Conv2dValid` | sw/tests/conv2d_test/conv2d_test.c:43-57 | If memory holds the int8 image p row by row, every run in valid mode leaves (or streams) the nine-term sums over p |
| `Int8Runs.Conv2dSame` | sw/tests/conv2d_test/conv2d_test.c:65-83 | The same for same mode from a cleared line buffer, up to 63 columns, with zeros outside the image |
| `Int8Runs.GemmProduct` | sw/tests/gemm_test/gemm_test.c:95-105 | If memory holds the int8 matrix a and the weights are b, every run leaves the sums of a(m,k) * b(k,n), and is done after enough ready cycles |
| `RangedMap.RangedMap.Emplace` | hw/ip/dv_verilator/cpp/ranged_map.h:37-100 | Ranges stay ordered and disjoint; exactly the ranges that touch the new one are replaced by their merge with it |
| `RangedMap.RangedMap.EmplaceDisjoint` | hw/ip/dv_verilator/cpp/ranged_map.h:108-146 | Inserts exactly when nothing touches the new range; otherwise the map is unchanged and a touching value is returned |
| `RangedMap.RangedMap.Find` | hw/ip/dv_verilator/cpp/ranged_map.h:158-177 | Returns an entry exactly when one covers the address |
| `RangedMap.RangedMap.Hits` | hw/ip/dv_verilator/cpp/ranged_map.h:48-69 | The two scans bound exactly the entries that touch the range |
| `RangedMap.RangedMap.UpperBound` | hw/ip/dv_verilator/cpp/ranged_map.h:50-50 | The first entry that starts strictly above the address |
| `RangedMap.MergeHits` | hw/ip/dv_verilator/cpp/ranged_map.h:82-92 | The merge loop folds the touched entries, in order, under the new one |
| `RangedMap.FoldRange` | hw/ip/dv_verilator/cpp/ranged_map.h:78-92 | The merged range reaches from the lowest bottom to the highest top |
| `RangedMap.FoldFits` | hw/ip/dv_verilator/cpp/ranged_map.h:94-99 | The merged entry still lies strictly between the neighbours of those it replaces |
| `RangedMap.ReplacedOrdered` | hw/ip/dv_verilator/cpp/ranged_map.h:94-99 | Replacing a run of entries by one that fits keeps the order |
| `Staging.MergeSegments` | hw/ip/dv_verilator/cpp/dpi_memutil.cc:234-291 | All three cases give the newer bytes laid over the older ones over the joined range |
| `Staging.OverlayGet` | hw/ip/dv_verilator/cpp/dpi_memutil.cc:234-291 | Byte by byte: the newer byte where there is one, else the older; the length is the range |
| `Staging.FoldGet` | hw/ip/dv_verilator/cpp/ranged_map.h:78-92 | Merging any run of touched segments gives the new bytes, and theirs elsewhere |
| `Staging.Emplaced` | hw/ip/dv_verilator/cpp/ranged_map.h:37-100 | As a byte map, the result of an insertion is the old map overridden by the new segment |
| `Staging.Mapping` | hw/ip/dv_verilator/cpp/ranged_map.h:158-177 | A byte is mapped exactly where some segment covers it |
| `Staging.StagedMem.AddSegment` | hw/ip/dv_verilator/cpp/dpi_memutil.cc:293-303 | Newest wins: afterwards the byte map is the old one overridden by the segment (an empty one changes nothing); the bounds stay exact |
| `Staging.GetFlat` | hw/ip/dv_verilator/cpp/dpi_memutil.cc:305-324 | The bytes from lowest to highest staged address with zero gaps; two zero bytes for an empty stage |
| `Staging.Added` | hw/ip/dv_verilator/cpp/dpi_memutil.cc:293-303 | The state invariant (ordered, disjoint, value length = range, exact bounds) survives an insertion, whose only new start is its own, so starts stay aligned |
| `MemLoad.MemArea.Write` | hw/ip/dv_verilator/cpp/mem_area.cc:28-51 | The written words are those of the data, the last zero-extended; every other word is unchanged |
| `MemLoad.MemArea.WriteBuffer` | hw/ip/dv_verilator/cpp/mem_area.cc:85-94 | The used part of the buffer is the next word of the data, zero-extended, whatever it held before |
| `MemLoad.SegmentWords` | hw/ip/dv_verilator/cpp/dpi_memutil.cc:446-454 | An aligned segment has a byte in exactly the words written for it, the first byte of each included |
| `MemLoad.WordsApart` | hw/ip/dv_verilator/cpp/dpi_memutil.cc:446-454 | A zero-extended last word never reaches a byte of another segment: starts are aligned and ranges disjoint |
| `MemLoad.WordLoaded` | hw/ip/dv_verilator/cpp/dpi_memutil.cc:446-454 | Writing one more segment makes its words the staged image and keeps the others |
| `MemLoad.LoadStaged` | hw/ip/dv_verilator/cpp/dpi_memutil.cc:437-464 | After loading a stage each touched word holds the staged bytes, zero where nothing is staged; all other words are unchanged |
| `MemLoad.DpiMemUtil.RegisterMemoryArea` | hw/ip/dv_verilator/cpp/dpi_memutil.cc:326-367 | An area is taken up, in the address map and the two lists alike, exactly when its addresses fit 32 bits and none of them belongs to an area already there; else nothing changes |
| `MemLoad.DpiMemUtil.GetRegionForSegment` | hw/ip/dv_verilator/cpp/dpi_memutil.cc:554-595 | The registered area that holds the whole segment, or the error that applies: no region, top overflows, too long |
| `MemLoad.DpiMemUtil.StageElf` | hw/ip/dv_verilator/cpp/dpi_memutil.cc:467-547 | Over any number of areas: headers in order until one is refused; if none is, the stage of every area is the byte map of the newest header covering each of its bytes, with aligned starts |
| `MemLoad.DpiMemUtil.StageHeader` | hw/ip/dv_verilator/cpp/dpi_memutil.cc:484-539 | One header: skipped, refused with the error that applies, or staged in the area it starts in and in no other |
| `MemLoad.NotBoth` | hw/ip/dv_verilator/cpp/dpi_memutil.cc:484-595 | A refused header passes the checks of no area |
| `MemLoad.KeptStep` | hw/ip/dv_verilator/cpp/dpi_memutil.cc:484-539 | A header that passes the checks of an area overrides its byte map by the bytes of the file |
| `MemLoad.KeptElsewhere` | hw/ip/dv_verilator/cpp/dpi_memutil.cc:484-539 | A header that is skipped, or lies in another area, changes nothing in this one |
| `MemLoad.DpiMemUtil.LoadElfToMemories` | hw/ip/dv_verilator/cpp/dpi_memutil.cc:433-465 | Over any number of areas: either some header is refused and no area changes, or in every area each word with a staged byte holds the newest bytes, zero-filled, and every other word is unchanged; it succeeds exactly when every header with load set and filesz above 0 lies whole in some area, at the start of a word, with its bytes in the file, and then every byte that such a header covers is, in the memory of its area, the byte of the file that the last such header puts there |
| `MemLoad.AcceptedMeans` | hw/ip/dv_verilator/cpp/dpi_memutil.cc:484-595 | In the fields of the header: one that is loaded is accepted exactly when it lies whole in some area, at the start of a word, with its bytes in the file; one with load clear or filesz 0 always is |
| `MemLoad.RefusedMeans` | hw/ip/dv_verilator/cpp/dpi_memutil.cc:484-595 | A header that is refused has load set and filesz above 0, and fails for the reason given: its start is in no area, or in one but the end overflows 32 bits, passes the top of the area, the start is inside a word, or the file is too short |
| `MemLoad.NewestIs` | hw/ip/dv_verilator/cpp/dpi_memutil.cc:484-539 | The byte of an address is file[offset + i] of the last loaded header that covers it, and there is none where no such header does |
| `EccBits.InsertBits` | hw/ip/dv_verilator/cpp/ecc32_mem_area.cc:95-116 | The low count bits are OR-ed in at any bit offset, across byte boundaries; every other bit of the buffer is unchanged |
| `EccBits.ExtractBits` | hw/ip/dv_verilator/cpp/ecc32_mem_area.cc:129-155 | The count bits at any bit offset, zero-extended |
| `EccMem.InsertWord` | hw/ip/dv_verilator/cpp/ecc32_mem_area.cc:119-126 | Four data bytes and seven check bits land as 39 consecutive bits, nothing else changes |
| `EccMem.WriteBuffer` | hw/ip/dv_verilator/cpp/ecc32_mem_area.cc:157-165 | A row is the consecutive code words of its data, whatever the buffer held before |
| `EccMem.WriteBufferWithIntegrity` | hw/ip/dv_verilator/cpp/ecc32_mem_area.cc:167-187 | A row is the code words, with complemented check bits for words marked bad |
| `EccMem.ReadBuffer` | hw/ip/dv_verilator/cpp/ecc32_mem_area.cc:189-197 | Byte j of word i is the eight bits at 39 i + 8 j |
| `EccMem.ReadBufferWithIntegrity` | hw/ip/dv_verilator/cpp/ecc32_mem_area.cc:199-217 | Every word comes with the verdict whether its check bits are those of its data |
| `EccMem.RowBytes` | hw/ip/dv_verilator/cpp/ecc32_mem_area.cc:157-197 | The bytes of a written row are found again at their unaligned offsets |
| `EccMem.JudgedAsWritten` | hw/ip/dv_verilator/cpp/ecc32_mem_area.cc:167-217 | A stored word is judged exactly as it was written, good or deliberately corrupted |
| `EccMem.FlipsAreReported` | hw/ip/dv_verilator/cpp/ecc32_mem_area.cc:199-217 | Flipping one, two, three or any odd number of the 39 stored bits of any word makes the reader report it bad |
| `EccMem.ReadDamaged` | hw/ip/dv_verilator/cpp/ecc32_mem_area.cc:199-217 | A stored row with one, two, three or any odd number of bits flipped in one good word: reading it reports that word bad and returns every other word, good or not, as it was written |
| `EccMem.StuckIsBad` | hw/ip/dv_verilator/cpp/ecc32_mem_area.cc:167-217 | A word of 39 zeros and a word of 39 ones are bad: this is what the inverted check bits are for |
| `EccMem.ReadStuck` | hw/ip/dv_verilator/cpp/ecc32_mem_area.cc:199-217 | A row in which some word reads as 39 zeros, or as 39 ones: the reader reports that word bad |
| `EccMem.Ecc32MemArea.WriteThenRead` | hw/ip/dv_verilator/cpp/ecc32_mem_area.cc:157-197 | For every width of 1 to 8 words and any whole number of rows, reading back what was written gives the same bytes |
| `EccMem.Ecc32MemArea.WriteThenReadWithIntegrity` | hw/ip/dv_verilator/cpp/ecc32_mem_area.cc:33-76 | Every (validity, word) pair comes back, corrupted ones included |
| `EccMem.Ecc32MemArea.Write` | hw/ip/dv_verilator/cpp/ecc32_mem_area.cc:157-165 | Whole rows hold the code words of the data; no other row changes |
| `EccMem.Ecc32MemArea.Read` | hw/ip/dv_verilator/cpp/ecc32_mem_area.cc:189-197 | The data bytes of the rows, in order |
| `EccMem.Ecc32MemArea.WriteWithIntegrity` | hw/ip/dv_verilator/cpp/ecc32_mem_area.cc:56-76 | Rows hold the flagged words; no other row changes |
| `EccMem.Ecc32MemArea.ReadWithIntegrity` | hw/ip/dv_verilator/cpp/ecc32_mem_area.cc:33-54 | Every word of the rows with its verdict, in order |
| `Secded.CalcParity` | hw/ip/dv_verilator/prim_secded/secded_enc.c:14-26 | The shift loop gives the parity of the number of ones, inverted on request |
| `Secded.EncSecdedInv` | hw/ip/dv_verilator/prim_secded/secded_enc.c:118-129 | The seven parities over the masked word, rows 1, 3 and 5 inverted |
| `Secded.MaskIsLiteral` | hw/ip/dv_verilator/prim_secded/secded_enc.c:122-128 | The bit sets the proofs work with spell the seven hexadecimal masks of the program |
| `Secded.ZeroWord` | hw/ip/dv_verilator/prim_secded/secded_enc.c:118-129 | The check bits of the zero word are exactly 0, 1, 0, 1, 0, 1, 0; with EncodeXor and the masks this fixes the code |
| `Secded.OnesWord` | hw/ip/dv_verilator/prim_secded/secded_enc.c:118-129 | The check bits of the word of ones are not all ones |
| `Secded.MasksAre` | hw/ip/dv_verilator/prim_secded/secded_enc.c:122-128 | The masks as numbers are the seven hexadecimal constants |
| `Secded.EncodeXor` | hw/ip/dv_verilator/prim_secded/secded_enc.c:118-129 | The code is affine: changing the data by d changes the check bits by a linear function of d alone |
| `Secded.PassesExactly` | hw/ip/dv_verilator/prim_secded/secded_enc.c:118-129 | A flipped word passes the check if and only if the flips are a codeword of the linear code |
| `Secded.CodewordsAreEven` | hw/ip/dv_verilator/prim_secded/secded_enc.c:118-129 | Every codeword of the linear code has an even number of ones |
| `Secded.NoCodewordOfTwo` | hw/ip/dv_verilator/prim_secded/secded_enc.c:118-129 | No codeword has exactly two ones: mask columns are distinct |
| `Secded.Detects` | hw/ip/dv_verilator/prim_secded/secded_enc.c:118-129 | One, two, three or any odd number of flips never pass, for every word |
| `Secded.FourCanPass` | hw/ip/dv_verilator/prim_secded/secded_enc.c:118-129 | Four flips can pass: a concrete pattern for every word |
| `PioSm.EveryRunConfined` | hw/ip/pio/rtl/pio_sm.sv:380-829 | A state machine whose wrap window is its program, with jumps inside and no PC or EXEC destinations, only ever fetches its own words, over every run of pins, FIFOs, flags, dividers, delays, restarts, confined forced instructions and foreign instruction memory writes |
| `PioSm.ClockConfined` | hw/ip/pio/rtl/pio_sm.sv:380-829 | One clock keeps the program counter in the window |
| `PioSm.DispatchConfined` | hw/ip/pio/rtl/pio_sm.sv:480-810 | A confined instruction sets no pending word and no target outside the window |
| `PioSm.WordIsRebuilt` | hw/ip/pio/rtl/pio_sm.sv:542-637 | OUT X, n / IN X, n for counts adding up to 32, equal shift directions, any delays and idle clocks between: the ISR ends as the word that was in the OSR, whatever it held before; with autopush at 32 that word is handed to the RX FIFO and the ISR is empty; autopull at 32 does not interfere |
| `PioSm.TimedExactly` | hw/ip/pio/rtl/pio_sm.sv:262-285 | Running undisturbed, nothing is carried out for exactly the delay left times the clock divisor plus the divider count, and then the next instruction is |
| `PioSm.InstructionPeriod` | hw/ip/pio/rtl/pio_sm.sv:294-368 | An instruction that does not stall is followed by the next exactly (delay + 1) * max(1, divisor) clocks later |
| `PioSm.ClockCountsDown` | hw/ip/pio/rtl/pio_sm.sv:419-425 | Each undisturbed clock brings the next instruction one clock nearer, and an instruction is carried out exactly when none are left |
| `PioSm.CountdownLoops` | hw/ip/pio/rtl/pio_sm.sv:484-507 | A JMP X-- to itself is carried out exactly X + 1 times before the program counter moves on, whatever delays and divider |
| `PioSm.OutStep` | hw/ip/pio/rtl/pio_sm.sv:586-637 | OUT X, n moves n bits from the OSR to X, touches nothing of the ISR, and is not stalled by autopull while bits are left |
| `PioSm.InStep` | hw/ip/pio/rtl/pio_sm.sv:545-581 | IN X, n shifts in the low n bits of X; autopush fires exactly when the count reaches the threshold |
| `PioSm.AutopushExactly` | hw/ip/pio/rtl/pio_sm.sv:560-579 | IN X, 32 with autopush at 32, over every run up to its first attempt: X is handed to RX and the machine moves on if and only if that attempt finds room; otherwise it stalls with the count at 32 |
| `PioSm.WordIsLost` | hw/ip/pio/rtl/pio_sm.sv:560-579 | After such a stall the next attempt moves on and hands over nothing, whether RX has room by then or not: the six-bit count has wrapped |
| `PioSm.StalledIn` | hw/ip/pio/rtl/pio_sm.sv:560-579 | For any count: an attempt that stalls on a full RX has shifted already, so the next attempt shifts again |
| `PioSm.PullWaits` | hw/ip/pio/rtl/pio_sm.sv:642-688 | A blocking PULL stays put, shift registers untouched and no pulse given, for as long as its attempts find TX empty, over every run; at the first that does not it loads the word at the head, gives the pulse and moves on |
| `PioSm.PushWaits` | hw/ip/pio/rtl/pio_sm.sv:642-688 | A blocking PUSH stays put for as long as its attempts find RX full; at the first that does not it hands over the ISR, empties it and moves on |
| `PioSm.PullStep` | hw/ip/pio/rtl/pio_sm.sv:661-688 | A PULL stalls exactly when it blocks and TX is empty; without blocking it copies X; IF_EMPTY holds it back exactly while the OSR has bits left |
| `PioSm.PushStep` | hw/ip/pio/rtl/pio_sm.sv:644-660 | A PUSH stalls exactly when it blocks and RX is full; without blocking it then keeps the ISR; IF_FULL holds it back exactly below the threshold |
| `PioSm.IrqWaits` | hw/ip/pio/rtl/pio_sm.sv:742-779 | An IRQ WAIT gives the pulse that raises its flag exactly once, however long it waits; it stays put for as long as its later attempts find the flag up and moves on at the first that does not |
| `PioSystem.EveryRunInverts` | hw/ip/pio/rtl/pio_sm.sv:642-737 | PULL; MOV ISR, !OSR; PUSH in a loop between the two FIFOs, over every run with any dividers, delays, side-sets, producers and consumers: the words that leave are the words that entered, inverted, each once and in order, and none is lost in the registered handshakes |
| `PioSystem.InOrder` | hw/ip/pio/rtl/pio_sm.sv:642-737 | From an empty RX: what has left is the start of what was fed, inverted, and lags it by what waits in TX and at most five words more |
| `PioSystem.PullLoopExactly` | hw/ip/pio/rtl/pio.sv:308-316 | A loop of one blocking PULL loads each word once and in order, over every run, if and only if its delay or the divider keeps the attempts two clocks apart |
| `PioSystem.LoadsTwice` | hw/ip/pio/rtl/pio.sv:308-316 | With an attempt in every clock the word at the head of TX is loaded twice, since the read pointer moves a clock after the pulse |
| `PioSystem.IrqWaitExactly` | hw/ip/pio/rtl/pio.sv:527-527 | An IRQ WAIT waits until somebody clears its flag, over every run, if and only if the clock divider is at least two |
| `PioSystem.GoesOn` | hw/ip/pio/rtl/pio_sm.sv:742-779 | At divider 0 or 1 the second attempt comes before the flag register is up: a run in which nobody clears the flag and the machine goes on |
| `PioSystem.WriteReleases` | hw/ip/pio/rtl/pio.sv:584-590 | At any divider: a CPU write that clears another flag in the clock of the pulse undoes the raising, and the machine goes on |
| `PioSystem.CpuReleases` | hw/ip/pio/rtl/pio.sv:584-587 | Clearing its flag releases a machine in IRQ WAIT, and nothing less does: with the flag up it stays put over every run in which nobody clears that flag, whatever other flags the CPU clears or raises; after a CPU write of IRQ with that bit set it moves on at its next attempt, however many clocks later that comes |
| `PioSystem.ForceWakes` | hw/ip/pio/rtl/pio.sv:588-590 | A CPU write of IRQ_FORCE wakes a machine that waits for that flag at its next attempt, and the machine's own pulse takes the flag down again |
| `PioSm.WaitWaits` | hw/ip/pio/rtl/pio_sm.sv:509-541 | A WAIT, over every run: it stays put, changes no register and gives no pulse for as long as its attempts see the pin (by its number, or input base + index modulo 32) or the flag at the other level; it moves on at the first attempt that sees the level asked for; then, and only if it waited for a flag to be up, it clears that flag in that one clock |
| `PioSm.WaitStep` | hw/ip/pio/rtl/pio_sm.sv:509-541 | One attempt of a WAIT: it stalls exactly while it sees the other level |
| `PioIsa.EveryRunRefines` | hw/ip/pio/rtl/pio_sm.sv:294-829 | The instruction set on numbers, register by register (X, Y, ISR, OSR, the two counts, the two pin registers, program counter, delay, pending word, stall, FIFO and flag pulses), shifts as division and remainder: over every run of configuration, words, pins, FIFOs, flags, forced words and restarts the bit-level interpreter has exactly these registers and pulses |
| `PioIsa.ClockRefines` | hw/ip/pio/rtl/pio_sm.sv:294-829 | The same for one clock |
| `PioIsa.CarryRegisters` | hw/ip/pio/rtl/pio_sm.sv:480-810 | Every instruction leaves in every register what the register's own rule says |
| `PioIsa.CarryEffect` | hw/ip/pio/rtl/pio_sm.sv:480-829 | Every instruction stalls, jumps, and gives pulses as the rules say |
| `PioIsa.SideSets` | hw/ip/pio/rtl/pio_sm.sv:294-475 | Side-set puts the top bits of the delay field, less the enable bit, on the group of pins at the side-set base, and nothing else changes |
| `PioIsa.DelayIs` | hw/ip/pio/rtl/pio_sm.sv:294-368 | The delay is what is left of the five bits below the side-set |
| `PioNumbers.ShiftInIs` | hw/ip/pio/rtl/pio_sm.sv:200-215 | Shifting n bits into the ISR is division by 2^n and adding the data above, or multiplication by 2^n and adding the data below, modulo 2^32 |
| `PioNumbers.ShiftOutIs` | hw/ip/pio/rtl/pio_sm.sv:218-246 | The bits shifted out and those that remain are remainder and quotient |
| `PioNumbers.GroupIs` | hw/ip/pio/rtl/pio_sm.sv:177-194 | A write of pins sets pin p of the group to bit (p - base) modulo 32 of the number |
| `PioNumbers.AllPins` | hw/ip/pio/rtl/pio_sm.sv:164-175 | Reading pins gives the number whose bit k is pin base + k, counted round |
| `PioSm.DecodeEncode` | hw/ip/pio/rtl/pio_sm.sv:147-150 | Every combination of fields is an instruction word and decodes to itself |
| `Pio.CollectMore` | hw/ip/pio/rtl/pio_sm.sv:200-215 | After m bits, shifting in the next n leaves the newest m + n bits of the word in the ISR, in both directions |
| `Pio.DrainMore` | hw/ip/pio/rtl/pio_sm.sv:234-246 | Shifting n more bits out of a word of which m are gone is shifting out m + n |
| `Pio.PinsRoundTrip` | hw/ip/pio/rtl/pio_sm.sv:164-194 | Reading back a pin group just written gives the data, groups wrapping at pin 32 included |
| `Pio.PinWritten` | hw/ip/pio/rtl/pio_sm.sv:177-194 | Pin base + k takes bit k if k is below the count, and is unchanged otherwise |
| `Pio.WritePinsLoop` | hw/ip/pio/rtl/pio_sm.sv:177-194 | The loop over the pins is the group write |
| `Pio.DecSubtracts` | hw/ip/pio/rtl/pio_sm.sv:488-490 | The X-- and Y-- decrement is subtraction of one, wrapping from zero to 2^32 - 1 |
| `Pio.ZeroValue` | hw/ip/pio/rtl/pio_sm.sv:487-489 | The zero test is that the register has the value 0 |
| `Pio.ToBitsValue` | hw/ip/pio/rtl/pio_sm.sv:785-795 | Immediate data written to a register has its value |
| `PioSmEngine.Sm.Clock` | hw/ip/pio/rtl/pio_sm.sv:262-829 | The clocked registers move as the cycle function that the run theorems are about |
| `PioSmEngine.Sm.Out` | hw/ip/pio/rtl/pio_sm.sv:586-637 | OUT on the registers: destinations, autopull and its stall |
| `PioSmEngine.Sm.In` | hw/ip/pio/rtl/pio_sm.sv:545-581 | IN on the registers: sources, shift, autopush and its stall |
| `PioSmEngine.Sm.Jmp` | hw/ip/pio/rtl/pio_sm.sv:484-507 | JMP on the registers: eight conditions, decrement with X-- and Y-- taken or not |
| `PioSmEngine.Sm.Finish` | hw/ip/pio/rtl/pio_sm.sv:772-825 | Program counter, delay and pending word after an instruction: a word from outside the program keeps the counter unless it jumps |
| `PioSlave.MessageReceived` | sw/lib/pio_programs/i2c_slave.pio.h:33-50 | The i2c_slave_rx program over every run, under every divider, of a bus that carries a START and any number of bytes, each level of SCL lasting as long as it likes and the CPU answering when it likes: RX is given exactly the words of the bytes; a byte that finds RX full stays in the ISR above the next |
| `PioSlave.WordIs` | sw/lib/pio_programs/i2c_slave.pio.h:33-50 | The word of a byte is the number its eight sampled levels spell, most significant first, in the low eight bits; what the ISR held stands above it |
| `PioSlave.LetGoForData` | sw/lib/pio_programs/i2c_slave.pio.h:33-50 | The program never pulls SDA in the eight data slots, whatever point the run has reached |
| `PioSlave.PulledForAck` | sw/lib/pio_programs/i2c_slave.pio.h:44-48 | SDA is pulled low before SCL rises for the ninth time and for as long as it is high |
| `PioSlave.StopIsABit` | sw/lib/pio_programs/i2c_slave.pio.h:33-50 | The program does not look for STOP: a STOP and the START after it are taken for a slot with a 0, the next byte is cut to its first seven bits and acknowledged in the slot of its eighth |
| `PioSlave.RunFollows` | sw/lib/pio_programs/i2c_slave.pio.h:33-50 | Over every run, at the clocks the divider selects, the eighteen words are a receiver of six fields, and between them nothing happens |
| `PioSlave.LinesBehave` | sw/lib/pio_programs/i2c_slave.pio.h:33-50 | Word by word, each of the eighteen words does to the machine what the receiver does |
| `PioSlave.ByteTaken` | sw/lib/pio_programs/i2c_slave.pio.h:39-45 | Eight slots and the low phase after them: the byte is given to RX exactly if RX has room at the one attempt that offers it |
| `PioSlave.StartTaken` | sw/lib/pio_programs/i2c_slave.pio.h:33-38 | SDA falling while SCL is high takes the program from its first word to where it waits for the first bit |
| `PioSlave.Resumes` | sw/lib/pio_programs/i2c_slave.pio.h:47-50 | After the ninth slot SDA is let go, the CPU is told and waited for, and the program is ready for the next byte |
| `PioAlloc.LiveProgramConfined` | sw/lib/hardware/pio.h:359-406 | While a program is live, a state machine wrapped to it and confined by it only fetches that program's words, whatever other programs are added and removed meanwhile |
| `PioAlloc.Space.Add` | sw/lib/hardware/pio.h:391-401 | First fit (or the fixed origin): fails, changing nothing, only if no free gap will do; else the program is live at the first free gap and every live program is intact |
| `PioAlloc.Space.AddAt` | sw/lib/hardware/pio.h:379-389 | Succeeds exactly when the slots are free; then the mask is again the union of disjoint live ranges and no live program was overwritten |
| `PioAlloc.Space.CanAdd` | sw/lib/hardware/pio.h:367-377 | True exactly when some allowed place is free |
| `PioAlloc.Space.Remove` | sw/lib/hardware/pio.h:403-406 | Frees exactly the slots of the live program; the others stay live and whole |
| `PioAlloc.Space.constructor` | sw/lib/hardware/pio.h:352-357 | Every slot a jump to itself, nothing live |
| `PioAlloc.FitsMeans` | sw/lib/hardware/pio.h:359-365 | The mask test finds room exactly where no live program lies |
| `PioAlloc.AddKeeps` | sw/lib/hardware/pio.h:384-387 | Copying a program into free slots leaves every live program whole and apart |
| `PioAlloc.AddExact` | sw/lib/hardware/pio.h:387-387 | OR-ing in the mask keeps it the union of the live ranges |
| `PioAlloc.RemoveExact` | sw/lib/hardware/pio.h:405-405 | Clearing the mask keeps it the union of the remaining live ranges |
| `PioFifo.EdgeRefines` | hw/ip/pio/rtl/pio.sv:303-345 | Each clock of the three-bit pointers is a clock of a bounded queue of four words, push and pop in the same clock included |
| `PioFifo.EveryRunConserves` | hw/ip/pio/rtl/pio.sv:303-345 | Over every run: words at the start, then words accepted, are the words delivered, then words left; never more than four wait |
| `PioFifo.FlagsMean` | hw/ip/pio/rtl/pio.sv:259-268 | Full and empty mean four words and none, and the consumer sees the oldest |
| `PioFifo.Fifo.ClockEdge` | hw/ip/pio/rtl/pio.sv:303-345 | The memory and pointers, updated in place, behave as the queue |
| `Softmax.Reference` | sw/tests/softmax_test/softmax_test.c:42-62 | The loops leave the softmax of the input in the output array and touch nothing past it |
| `Softmax.StreamReference` | sw/tests/conv2d_relu_softmax_stream_test/conv2d_relu_softmax_stream_test.c:103-126 | The version with restoring division leaves the same softmax: both references agree |
| `Softmax.RestoringReciprocal` | sw/tests/conv2d_relu_softmax_stream_test/conv2d_relu_softmax_stream_test.c:117-122 | The seventeen-step loop computes floor(65536 / sum) for every sum of at least 1 |
| `Softmax.NoTruncation` | sw/tests/softmax_test/softmax_test.c:57-61 | The product fits 16 bits and the eight-bit cast loses nothing: each output is the product divided by 256 |
| `Softmax.OutputsSumToOne` | sw/tests/softmax_test/softmax_test.c:42-62 | 65537 - sum - 255 n <= 256 * (sum of outputs) <= 65536 |
| `Softmax.OrderPreserved` | sw/tests/softmax_test/softmax_test.c:42-62 | A larger input never gets a smaller output |
| `Softmax.ShiftInvariant` | sw/tests/softmax_test/softmax_test.c:42-62 | Adding a constant to every input, within int8, changes no output |
| `Softmax.TotalAtLeast` | sw/tests/softmax_test/softmax_test.c:48-55 | The largest element contributes 255, so the divisor is at least 255 |
| `Softmax.RecipBounds` | sw/tests/softmax_test/softmax_test.c:57-58 | The reciprocal is at most 257, and times the sum misses 65536 by less than the sum |
| `Softmax.NearestExponential` | hw/ip/softmax/rtl/exp_lut.sv:9-10 | Every entry of the table is 255 * q^d to the nearest whole number for q = e^(-1/46), and for everything that agrees with it to six places |
| `Softmax.ExpFalls` | sw/tests/softmax_test/softmax_test.c:20-37 | The table never increases with the distance from the maximum |
| `Softmax.ExpRange` | sw/tests/softmax_test/softmax_test.c:20-37 | Entries lie in 1..255, 255 at distance 0 |
| `Softmax.FindMax` | sw/tests/softmax_test/softmax_test.c:43-46 | The loop finds the maximum |
| `Softmax.Exponentials` | sw/tests/softmax_test/softmax_test.c:48-55 | The loop fills in the table entries and their sum, with no index out of the table and no overflow |
| `Softmax.MaxIsUnique` | sw/tests/softmax_test/softmax_test.c:43-46 | The maximum is the only member that no other exceeds |
| `Im2col.ProductIsConvolution` | sw/tests/gemm_test/gemm_test.c:35-105 | im2col followed by the matrix product is the direct valid-mode convolution, for every image size, kernel size and number of kernels |
| `Im2col.ProductIsConv2d` | sw/tests/gemm_test/gemm_test.c:35-105 | For one 3 x 3 kernel it equals the 2D convolution test's reference on the same int8 pixels |
| `Im2col.Im2col` | sw/tests/gemm_test/gemm_test.c:35-44 | The four loops leave the matrix of windows |
| `Im2col.RefGemm` | sw/tests/gemm_test/gemm_test.c:95-105 | The three loops leave the matrix product as a 32-bit accumulator holds it, wrapping at each addition or not |
| `Im2col.FlatSum` | sw/tests/gemm_test/gemm_test.c:35-44 | The flat dot product of a window with the flattened kernel is the nested double sum |
| `Im2col.RowIsPatch` | sw/tests/gemm_test/gemm_test.c:35-44 | Row Cell(r, k) of the matrix of windows is the window at (r, k) |
| `Im2col.PatchIsValidTaps` | sw/tests/conv2d_test/conv2d_test.c:43-57 | A 3 x 3 window is the nine pixels the convolution reference sums over |
| `Im2col.AccumulatorFits` | sw/tests/gemm_test/gemm_test.c:99-101 | The product lies in int32 while K is below 2^17 |
| `Im2col.RefGemmIsProduct` | sw/tests/gemm_test/gemm_test.c:99-101 | So for such K what ref_gemm leaves is the product itself |
| `Im2col.EngineIsProduct` | sw/tests/gemm_test/gemm_test.c:95-105 | What the matrix engine writes for A in memory and B in its weights is what ref_gemm computes |
| `I2c.Waveform` | hw/ip/i2c_controller/rtl/i2c_controller.sv:123-313 | One byte, for every opening (START from idle, START asked for in WAIT_NEXT, or following on), read or write, with STOP or without, every prescale >= 1, every stream of pull-downs of SDA by others and every stream of CPU writes but to PRESCALE: the lines the controller drives are those of its segments of p clocks each, it is busy in exactly those clocks, and then it is done with both lines let go, or waits with SCL low |
| `I2c.SpanIs` | hw/ip/i2c_controller/rtl/i2c_controller.sv:123-313 | A byte takes 22 periods with START and STOP, 20 without STOP, 18 if it follows on without either |
| `I2c.WriteRecords` | hw/ip/i2c_controller/rtl/i2c_controller.sv:175-246 | A write, whatever others do: arbitration is reported lost at every moment if and only if it was before, or a data slot sending a 1 has been sampled low by then; the acknowledgement is the sample of the ninth slot |
| `I2c.ArbitrationGoesOn` | hw/ip/i2c_controller/rtl/i2c_controller.sv:175-210 | For every byte and every slot of it that sends a 1: a stream on which arbitration is lost exactly from that slot on, while the controller drives the rest of its byte and what follows it |
| `I2c.ReadRecords` | hw/ip/i2c_controller/rtl/i2c_controller.sv:175-250 | A read, whatever others do: RX_DATA is the eight sampled levels, most significant first; neither status flag moves |
| `I2c.ReadDrives` | hw/ip/i2c_controller/rtl/i2c_controller.sv:196-212 | In a read SDA is released in slots 0 to 7, and slot 8 is driven low if and only if ack_enable is set |
| `I2c.Reaches` | hw/ip/i2c_controller/rtl/i2c_controller.sv:123-313 | After 1 + i p + d clocks, counted in segments from the first of the byte, the transfer is in that segment with p - 1 - d clocks of it to go, and the record is that of the slots sampled so far |
| `I2c.TickHolds` | hw/ip/i2c_controller/rtl/i2c_controller.sv:138-276 | Between ticks nothing but the counter moves, whatever the line carries and the CPU writes |
| `I2c.TickAdvances` | hw/ip/i2c_controller/rtl/i2c_controller.sv:138-276 | At a tick the next segment begins, whatever the line carries, and a slot is recorded as sampled |
| `I2c.HiSamples` | hw/ip/i2c_controller/rtl/i2c_controller.sv:175-215 | At the end of a data slot the next state is that of the next slot even when arbitration is lost |
| `I2c.Finishes` | hw/ip/i2c_controller/rtl/i2c_controller.sv:226-313 | In the clock after the last segment the byte is over: done with the lines let go if STOP was asked for, waiting with SCL low and the pending flag being cleared if not, all nine slots recorded |
| `I2c.SentTwice` | hw/ip/i2c_controller/rtl/i2c_controller.sv:226-313 | A START without STOP after which the CPU writes nothing: the pending flag that asked for it is still up in the first WAIT_NEXT clock, so the byte in TX_DATA is sent again at once, and then the machine waits with SCL low for ever |
| `I2c.Waits` | hw/ip/i2c_controller/rtl/i2c_controller.sv:283-313 | A machine that waits stays as it is, SCL low, for as long as the CPU asks for nothing |
| `I2c.Programmed` | hw/ip/i2c_controller/rtl/i2c_controller.sv:338-383 | The CPU writes PRESCALE, TX_DATA and CTRL in three clocks: the idle machine is then at the start of exactly the transfer these describe |
| `I2c.SilentByte` | hw/ip/i2c_controller/rtl/i2c_controller.sv:338-383 | The CPU side of a byte during which nothing is written: TX_DATA stays, the start and stop bits are gone after one clock, the pending flag goes only where the state machine asks |
| `I2cBus.FrameSeen` | hw/ip/i2c_controller/rtl/i2c_controller.sv:123-313 | Whenever every slot is steady on the wire, an independent monitor of the two lines sees START if one was asked for from idle, the nine slots in order, and a STOP if and only if asked for, and SDA steady whenever SCL is high or rising (data validity and START/STOP as in sections 3.1.3 and 3.1.4 of NXP UM10204); without STOP SCL ends low |
| `I2cBus.WriteTransfer` | hw/ip/i2c_controller/rtl/i2c_controller.sv:123-313 | A write that only the acknowledging slave shares, with START or not, with STOP or not: busy in exactly its periods; the bus carries the opening, the byte most significant bit first, the acknowledgement, and STOP if asked for; the acknowledgement is reported and no arbitration lost |
| `I2cBus.ReadTransfer` | hw/ip/i2c_controller/rtl/i2c_controller.sv:123-313 | A read of a byte a slave sends steadily: the byte in RX_DATA, and on the bus the opening, the byte, the acknowledge bit of the controller, and STOP if asked for |
| `I2cBus.ByteArrives` | hw/ip/i2c_controller/rtl/i2c_controller.sv:123-313 | For every byte there is a slave that sends it, by pulling SDA in the slots of its zeros, and that byte is the one received and seen on the bus |
| `I2cBus.SeenAdvances` | hw/ip/i2c_controller/rtl/i2c_controller.sv:138-276 | The monitor records a bit at each fall of SCL that ends a slot, and nothing else between the opening and STOP |
| `I2cBus.MessageSeen` | hw/ip/i2c_controller/rtl/i2c_controller.sv:123-313 | A whole message of any number of bytes, reads and writes, with any waits between them: the monitor sees the opening of the first, then the nine slots of each byte, a START only where one was asked for from idle, and a STOP if and only if the last byte asked for it |
| `I2cBus.TwiceOnBus` | hw/ip/i2c_controller/rtl/i2c_controller.sv:226-313 | What a START without STOP puts on the bus when the CPU writes nothing more: START, the byte, the same byte again, and no STOP however long one watches |
| `I2cEngine.Controller.Clock` | hw/ip/i2c_controller/rtl/i2c_controller.sv:106-383 | The clocked registers move as the cycle function that the transfer theorems are about |
| `I2cEngine.Controller.FsmEdge` | hw/ip/i2c_controller/rtl/i2c_controller.sv:123-313 | Each state of the machine on the registers, read mode and WAIT_NEXT included |
| `I2cEngine.Controller.BusEdge` | hw/ip/i2c_controller/rtl/i2c_controller.sv:338-369 | Control, data and prescale registers: start and stop cleared while busy, a write in the same clock winning |
| `Loopback.ByteArrivesAcross` | dv/rtl/opensoc_top_wrapper.sv:25-33 | The controller and the receiver program on one bus, wired as here, with the register on the pin outputs and the two on the pin inputs, for every byte and every prescale of four or more, with STOP or without: RX is given exactly that byte, once, and the controller records it acknowledged and its arbitration not lost |
| `Loopback.BenchExists` | dv/rtl/opensoc_top_wrapper.sv:25-33 | For every byte, prescale and stream of CPU writes but to PRESCALE there is such a run of the two together |
| `Loopback.BitAcross` | dv/rtl/opensoc_top_wrapper.sv:25-33 | In each of the eight slots the program takes the level the controller drives there |
| `Loopback.FreeDuring` | dv/rtl/opensoc_top_wrapper.sv:25-33 | While the eight slots last the program pulls nothing |

## Left out

- SOFT_RESET while conv1d, conv2d or gemm is busy: it clears flags but not the state, so runs start from idle.
- conv2d kernel sizes other than 3, conv1d kernel sizes outside 1..16 and valid mode with LENGTH below K, gemm K and N outside 1..8: the datapaths do not support them.
- Register read paths, interrupt lines, byte enables and address decoding of all blocks: wiring.
- The valid bits beside the skew chain and the east outputs of the array: not used by anything.
- ELF parsing, 64-bit headers, DPI calls and scrambling: the file is its program headers and bytes, memory an array of words.
- MemLoad.DpiMemUtil.GetRegionForSegment: the error text is reduced to its kind, and so is that of a refused registration.
- MemLoad.DpiMemUtil.RegisterMemoryArea: names and their uniqueness; areas are known by index, and each has storage of its own.
- MemLoad.DpiMemUtil.StageElf: every area gets an empty stage at once, where the program makes one at the first segment.
- PIO DMA: PioSystem takes any producer and consumer of words. The state machine takes pins as free inputs; only Loopback has the registers on the pins.
- PioSm.WordIsRebuilt: thresholds of autopull and autopush below 32, and a full RX FIFO (`PioSm.StalledIn` says what that does).
- PioSm.EveryRunConfined: forced words are assumed confined too; a forced jump may of course go anywhere.
- PioFifo.Fifo.ClockEdge: one producer and one consumer in a clock; CPU and DMA pushing into one FIFO in the same clock is not modelled.
- PioAlloc.Space.Add: programs of 1 to 31 words and origins up to 31, for which the shift arithmetic of the mask is defined.
- PioAlloc.Space.Remove: takes a live program; removing one that is not live would free slots of another.
- Relocation of jump targets: the SDK copies instructions unchanged.
- I2c.Waveform: SCL is not stretched, as the code never reads it, and the CPU does not write PRESCALE during a byte.
- Loopback.ByteArrivesAcross: one byte with a START and the program at full speed; prescales below four, for which the program is too slow to acknowledge, and the transmitter program are not covered.
- PioSlave.MessageReceived: levels of SCL seen only once; the program may miss them.
- Im2col.RefGemm: overflow of a C int is taken to wrap; it cannot happen for K below 2^17.
- sg_dma, vec_mac, softmax and dma_accel_core RTL, crossbar, bridges and CPU are not part of this model.
