# LIRC, modelled and verified

LIRC turns button presses of infrared remote controls into messages and back. Its daemon holds a
description of each remote (timings, bit counts, flags, one code or a sequence of codes per button).
To send, it builds alternating pulse and space durations from a code word; to receive, it parses
such durations back, compares the word with the buttons it knows, and announces presses, repeats
and releases. This project models that path in Dafny and proves what it is for.

| module | what it is |
|---|---|
| `Options`, `Words`, `Signals`, `Remotes` | 64-bit code words as bit lists, pulses and spaces with their waveform, the remote's configuration and tolerance tests |
| `SendBuffers`, `Transmit` | the transmit buffer (a class over its array) and the encoder |
| `Passes`, `FrameShapes`, `PassBuffers`, `Gains`, `LoopEnds`, `InitSend` | the loop that puts frames and gaps into one buffer: its passes, what their frames are like, the buffer over one pass, how much longer it gets, whether the loop ends, and the loop itself |
| `RecBuffers`, `Receive`, `Receiver` | the receive buffer with its step back, the decoder as functions, the same decoder as code over the buffer |
| `RoundTrip`, `Patterns`, `BitRoundTrip`, `SymbolRoundTrip`, `FrameRoundTrip` | decoding undoes encoding: signal by signal, bit by bit, word by word, frame by frame; and what is decided from the signals ahead |
| `RepeatCodes`, `DecodeRoundTrip`, `CodeSurvives`, `Repetitions`, `MissingFoot` | what tells a repeat code from a frame, both of them decoded in any state, what that means for a configuration, and repetitions that leave out header or foot |
| `FrameEnds`, `Synchronising` | the header and the gap that the decoder asks for, the gap before a frame, and how long it waits |
| `Tolerance`, `NoisyBits`, `NoisyFrames` | what the tolerance accepts, and frames whose durations are off by as much |
| `DoubledBits`, `WireFormat` | the bits that RC-6 doubles, and frames at concrete remotes |
| `Concatenation`, `Rounds`, `Sequences` | a buffer of several frames, received frame after frame, and which code of a sequence each of them is |
| `Recogniser`, `Decode`, `HeldSequences`, `ToggleLock`, `ToggleBits`, `EndToEnd` | buttons recognised in a stream of codes, sequences, toggle masks, toggle bits and repeats, both ends together |
| `Releases`, `WithoutReleases`, `Lircd`, `Repeats` | the daemon: releases and messages, with release events and without, its list of remotes, SEND_ONCE, SEND_START and SEND_STOP |
| `Factor`, `Irrecord`, `ReverseCompat`, `SortRemotes`, `RawCodes`, `Flags`, `Uirt2` | transformations that have to preserve meaning: common bits factored out, REVERSE remotes, the list sort, the configuration text, REMSTRUCT1 compression |
| `Examples` | concrete inputs for some of the findings below |

Where the original changes state step by step there is a class or a method over an array or a linked
list, and its contract ties the new state to a function of the old one; the theorems are lemmas
about those functions. The device is a list of events (a pulse, a space, or a timeout after a given
time) that the receive buffer consumes; clocks and sockets are inputs and an output log.

What the main results say:

* **Decoding undoes encoding.** For RC-5, RC-6, space-encoded, RC-MM and XMP remotes, from the
  contents of the transmit buffer a receiver in any earlier state gets exactly the words that were
  sent (`DecodeRoundTrip.DecodeUndoesSendBuffer`), whatever the device does after the gap
  (`DecodeRoundTrip.WhateverFollows`), repetitions included (`Repetitions.DecodeUndoesRepetition`).
  Each duration on the air may be off by the tolerance configured, for pulse-first and biphase bits
  whose timings are far enough apart (`NoisyFrames.NoisyAirIsReceived`); off by more it is not taken
  for that bit. Without its header or the gap after it a frame is refused (`FrameEnds.HeaderlessExactly`,
  `FrameEnds.GapIsAskedFor`).
  Several frames in one buffer are decoded one after the other, each after the gap that the one
  before it asked for (`Concatenation.BufferIsDecoded`).
  After a frame of a remote with a repeat code the receiver looks for that code first. A repeat code
  is then decoded to the last code (`DecodeRoundTrip.RepeatBufferIsReceived`), and a frame to its own
  code unless it passes for a repeat code, in which case it is decoded to the last code instead
  (`DecodeRoundTrip.FrameTakenForRepeat`); `CodeSurvives.FramesUnlike` is a test on the configuration
  that rules this out, and the remote in `remotes/generic/NEC-pulse.conf`, whose repeat code has the
  lengths of its header, passes it (`CodeSurvives.NecPulseIsSound`). The daemon announces the button,
  with toggle bits or without (`EndToEnd.SentButtonIsAnnounced`), and a button that is held is
  counted, with repeat codes or repeated frames (`EndToEnd.HeldButtonIsAnnounced`) or a toggle mask
  (`EndToEnd.ToggledButtonIsAnnounced`). The
  conditions on tolerances are shown to be exact for pulse-first bits and for XMP nibbles, and the
  remote in `remotes/generic/XMP` meets them all (`CodeSurvives.GenericXmpIsSound`).
* **Buffers.** The transmit buffer refines a run-length encoder; the receive indices stay in bounds
  whatever the device delivers; preparing a transmission ends exactly if the sequence ends or fills
  the buffer (`InitSend.Sender.Prepare`, `LoopEnds.NeverEndsExactly`).
* **Recognition.** `get_code` is a Knuth-Morris-Pratt automaton per button. A button with a sequence of
  codes is sent code after code, all of them once for each repeat (`Sequences.SequenceInOneBuffer`), and
  announced once for each time it is complete (`HeldSequences.SequenceIsCounted`).
* **Runs of the daemon.** Sender and receiver stay in step over a toggle mask; presses and releases
  alternate in every interleaving of signals and timeouts, and a button that is held outlives a
  signal that nothing decodes (`Releases.HoldSurvivesGarbage`); without release events, as by default,
  clients see the same less the releases (`WithoutReleases.QuietRunIsFullRun`); repeat counts are met.

Findings, each with a proof. The code is modelled as it is:

* SEND_ONCE sends one frame and the greater of both repeat counts only if gaps are long or one count
  is 0 (`Repeats.OnceTotalIsGreater`); with frames sharing a buffer the counts add up.
* A second SEND_STOP takes what is left of the minimum for what is left of repeat_max. SEND_START
  meets its minimum exactly if at most one SEND_STOP comes before the minimum is done, or minimum
  and repeat_max are equal, or frames share a buffer (`Repeats.MinimumIsMet`); two at once always
  miss it (`Repeats.TwoStops`). A minimum above repeat_max is met only if there is such a SEND_STOP.
* Noise within the tolerance can make a zero a one, exactly where the timings of a pulse-first remote
  are closer than the tolerances for both (`NoisyBits.NoiseConfuses`).
* Under NO_HEAD_REP the tolerance for the space of the header is taken of what is heard instead of what
  is expected: a header within tolerance may be refused (`FrameEnds.HeaderDecides`,
  `Examples.ShortHeaderIsRefused`).
* `get_pre_data` does not look at the further codes of the first button; it loses their bits unless
  they agree (`Factor.FactorPreKeeps`, `Factor.SequenceOfFirstButtonIsLost`).
* A sender of constant length takes the header off the first gap even for a header that is never
  sent; sender and receiver then disagree by its length (`InitSend.GapsAgree`; 48500 against 57500
  microseconds in `Examples.GapsDisagree`).
* After a repeat code the sender waits for repeat_gap even under CONST_LENGTH, where the receiver
  goes by the length: they agree on the gap if and only if at most one of both is configured or the
  length makes no difference (`InitSend.RepeatGapsAgree`; 40000 against 96000 microseconds in
  `Examples.RepeatGapsDisagree`).
* The repeat code of a biphase remote is sent pulse first and read space first. With a trail pulse it
  is never accepted as one; without, only for a lead pulse or a repeated header that the tolerance
  confuses with it, and gaps to match (`DecodeRoundTrip.BiphaseTaken`).
* A repetition sent without its foot (NO_FOOT_REP) is decoded only if what follows passes for the
  foot and the gap after it: the decoder asks for the foot of every frame
  (`MissingFoot.RepetitionWithoutFoot`, `Examples.FootIsMissed`).
* Several toggle bits go together in what is sent exactly if they are alike in the first code of the
  remote, and later in the code received last (`ToggleBits.StartsTogether`,
  `ToggleBits.ReceivedTogether`); otherwise a code that is sent is not recognised as itself
  (`ToggleBits.SentCodeMatches`, `Examples.MixedToggleBits`).
* `init_send` runs for ever for an XMP sequence whose frames add nothing to the buffer after the
  first; the condition is exact (`LoopEnds.NeverEndsExactly`), and for remotes with a gap and a pulse
  in each symbol it is that repetitions have no pulse at all and gaps are short
  (`LoopEnds.PulselessExactly`, `Examples.MuteNeverEnds`).
* In the REMSTRUCT1 loop the test against the greatest number of bits lets one bit too many pass,
  exactly for a buffer of 131 durations sent once (`Uirt2.BitsOverflow`). The bit goes to bCheck, the
  byte behind the bit field. Firmware from version 0x0905 on is sent bCheck as it is; before, the
  checksum of the message takes its place, and the device sends what the lowest bit of that says
  (`Uirt2.OverflowIsFaithful`, `Examples.LastPulseIsLost`).
* The same older firmware is asked for at most 31 transmissions, without an error; this is one too few
  exactly for 255 durations that are 32 parts of eight (`Uirt2.OlderFirmwareRepeats`,
  `Examples.LastPartIsLost`).

## Model

| member | source | states |
|---|---|---|
| `Words.Reverse` | daemons/ir_remote.h:61-72 | the loop over bits yields the low bits in opposite order |
| `Words.ReverseInvolution` | daemons/ir_remote.h:61-72 | reversing twice masks a word to its width |
| `Words.ReverseConcat` | daemons/ir_remote.h:61-72 | the reverse of a concatenation is the concatenation of the reverses in opposite order |
| `Words.ShiftOut` | daemons/transmit.c:186-283 | bits shifted out of the low end of a reversed word are those of the word in their original order |
| `Signals.RunsKeepWave` | daemons/transmit.c:68-96 | merging neighbours of one level keeps the waveform microsecond by microsecond and the total time, and yields positive, alternating durations |
| `Signals.WaveDeterminesRuns` | daemons/transmit.c:68-96 | there is only one such list for a waveform, so the merged form is determined |
| `SendBuffers.SendRefinesRuns` | daemons/transmit.c:68-96 | one send_pulse or send_space extends the last run or starts a new one, and sum plus pending grows by its length |
| `SendBuffers.SendAllRefinesRuns` | daemons/transmit.c:56-96 | after any calls without overflow, buffer and pending value are the run-length form of the calls with leading spaces dropped, one value is pending, and sum plus pending is their total |
| `SendBuffers.SyncGivesAir` | daemons/transmit.c:142-150 | after sync_send_buffer the buffer is what a receiver sees, without a last space, and sum is its length |
| `SendBuffers.SendBuffer.PushPulse` | daemons/transmit.c:68-79 | a pulse joins a pending pulse or flushes a pending space |
| `SendBuffers.SendBuffer.PushSpace` | daemons/transmit.c:81-96 | a space before the first pulse is ignored, else it joins a pending space or flushes a pending pulse |
| `SendBuffers.SendBuffer.FlushAll` | daemons/transmit.c:130-140 | both pending values go to the buffer |
| `SendBuffers.SendBuffer.Synchronise` | daemons/transmit.c:142-150 | a pending pulse goes to the buffer, and a space at its end is dropped |
| `Tolerance.ExpectIsNear` | daemons/ir_remote.h:286-293 | a length is accepted for another if and only if it is off by at most eps percent of the one expected, or by at most aeps or the resolution |
| `Tolerance.ExpectAtLeastIsNear` | daemons/ir_remote.h:295-303 | at least: if and only if it is no shorter, or off by no more than that |
| `Tolerance.ExpectAtMostIsNear` | daemons/ir_remote.h:305-313 | at most: if and only if it is no longer, or off by no more than that |
| `Tolerance.ClearIsApart` | daemons/ir_remote.h:286-293 | of two lengths further apart than both tolerances together, nothing passes for both |
| `Tolerance.NotClearIsShared` | daemons/ir_remote.h:286-293 | of two lengths that are closer something does |
| `Transmit.ApplyToggles` | daemons/transmit.c:237-252 | the bit at the low end gets its toggle bit and toggle mask, the other bits stay |
| `Transmit.SendBit` | daemons/transmit.c:253-281 | one bit as pulse and space, or space and pulse for a biphase one, doubled where rc6_mask says so |
| `Transmit.SendBits` | daemons/transmit.c:235-284 | the loop over bits sends the air form of the word, most significant bit first |
| `Transmit.SendPairs` | daemons/transmit.c:190-218 | RC-MM: two bits a symbol, nothing for odd widths |
| `Transmit.SendNibbles` | daemons/transmit.c:219-233 | XMP: four bits a symbol, the space growing with their value, nothing for widths that are no multiple of four |
| `Transmit.SendRepeat` | daemons/transmit.c:308-314 | the repeat code between lead and trail, with the header if it is repeated |
| `Transmit.SendCode` | daemons/transmit.c:316-331 | a whole frame in order; a repetition without header or foot where the flags say so; the header taken off the sum for a first frame under NO_HEAD_REP and CONST_LENGTH |
| `DoubledBits.DoubledOnAir` | daemons/transmit.c:253-281 | bit p of the whole word, counted from the low end, has both of its halves doubled on the air if and only if bit p of rc6_mask is set, whichever of the three words it is in |
| `DoubledBits.DataTakes` | daemons/transmit.c:235-284 | data takes the time of all its bits and once more that of the masked ones |
| `DoubledBits.MceData` | remotes/mceusb/lircd.conf.mceusb:39-52 | the remote configured there sends bit 4 of its pre-data as two halves of 888, and the other 20 as halves of 444 |
| `DoubledBits.MceCode` | remotes/mceusb/lircd.conf.mceusb:39-52 | and all bits of its codes as halves of 444 |
| `WireFormat.FullFrame` | daemons/transmit.c:316-331 | header, lead, pre-data, divider, code, divider, post-data, trail and foot on the air at a remote that has them all |
| `WireFormat.BareRepetition` | daemons/transmit.c:316-331 | its repetition without header and foot |
| `WireFormat.FullRepeat` | daemons/transmit.c:308-314 | its repeat code with the header and without |
| `WireFormat.RcmmSymbols` | daemons/transmit.c:190-218 | the four RC-MM symbols |
| `WireFormat.XmpSymbol` | daemons/transmit.c:219-233 | an XMP symbol |
| `WireFormat.BiphaseBits` | daemons/transmit.c:253-281 | a one and a zero of RC-5 |
| `InitSend.Sender.SendPass` | daemons/transmit.c:375-415 | one pass sends a frame or the repeat code, and steps the toggle mask only for a frame |
| `InitSend.Sender.ComputeGap` | daemons/transmit.c:424-440 | the least and the greatest gap after the pass, what is left of them for a remote of constant length, or failure if there is no room for one |
| `InitSend.Sender.CheckBuffer` | daemons/transmit.c:108-128 | a buffer is usable exactly if it is not empty and no entry is 0 |
| `InitSend.Sender.GoOn` | daemons/transmit.c:441-475 | the next place in the sequence, whether another frame follows, and the gap flushed before it |
| `InitSend.Sender.PassOnce` | daemons/transmit.c:374-476 | a turn of the loop keeps the buffer equal to all frames and gaps so far, and is the turn that the exact theorem on termination is about |
| `InitSend.Sender.Prepare` | daemons/transmit.c:352-488 | init_send terminates for every remote and button for which its loop does not run for ever; success leaves the frames and gaps of a chain of passes in the buffer |
| `FrameShapes.FramePulse` | daemons/transmit.c:316-331 | a frame of an XMP remote has a pulse if and only if its header, lead, data, dividers, trail or foot has one, in terms of the configured values |
| `FrameShapes.GenericXmpFills` | remotes/generic/XMP:1-18 | the XMP remote that is configured there meets the condition |
| `InitSend.PreparedBuffer` | daemons/transmit.c:352-488 | after success the buffer holds what a receiver sees of all frames and gaps, and each gap is the one computed for its frame, for every remote with a gap whose passes begin with a pulse and have no empty signals, also one that the decoder cannot tell apart |
| `LoopEnds.TurnsRunOut` | daemons/transmit.c:441-475 | every further turn has fewer repeats left, or as many and fewer places in the sequence |
| `Gains.TurnLevel` | daemons/transmit.c:424-475 | the length of the buffer after a turn, rounded up to an even number, is that of the length before plus what the frame adds, whatever pulses of length 0 or missing gaps there are |
| `LoopEnds.NeverEndsExactly` | daemons/transmit.c:374-476 | the loop runs for ever if and only if the sequence is endless, gaps are short, three turns go on, and the buffer is then empty or no place of the sequence makes it longer |
| `LoopEnds.PulselessExactly` | daemons/transmit.c:374-476 | for a remote with a gap and a pulse in each symbol: if and only if the sequence is endless, the gap short, there is no repeat code, no pulse in repetitions by the configuration, and the first turn goes on |
| `LoopEnds.FillsBufferEnds` | daemons/transmit.c:374-476 | a gap, and a repeat code or a pulse in every repetition, make every loop end |
| `Examples.MuteNeverEnds` | daemons/transmit.c:441-475 | an XMP remote and a sequence for which the loop runs for ever from the empty buffer on |
| `InitSend.ConstantLength` | daemons/transmit.c:328-330 | each frame takes with its gap exactly min_gap and the space that the frame ends in, the first one under NO_HEAD_REP the header more |
| `InitSend.RepeatsInOneBuffer` | daemons/transmit.c:458-475 | a single code is put into the buffer once and once for each repeat while gaps are short |
| `Sequences.PassSendsCode` | daemons/transmit.c:441-470 | pass i sends code i modulo n of a button with n codes, and the repeats are counted down once a round |
| `Sequences.XmpSendsCode` | daemons/transmit.c:441-457 | an XMP remote sends the first code once and the others round after round |
| `Sequences.SequenceInOneBuffer` | daemons/transmit.c:441-475 | while gaps are short a button with n codes is put into the buffer in n times as many passes as there are repeats left and one |
| `InitSend.GapsAgree` | daemons/receive.c:1102-1136 | receiver and sender compute the same range for the gap after a frame that leaves room for one, and is told from a repeat code where one is looked for, if and only if the header is there, or not discounted, or empty |
| `InitSend.RepeatGapsAgree` | daemons/receive.c:971-980 | after a repeat code they compute the same range if and only if not both repeat_gap and constant length are configured, or both come to the same |
| `Examples.RepeatGapsDisagree` | daemons/transmit.c:424-427 | a remote, its repeat code and a receiver for which the two gaps are 40000 and 96000 |
| `Examples.GapsDisagree` | daemons/transmit.c:328-330 | a remote, its frame and a receiver for which the two gaps are 48500 and 57500 |
| `RecBuffers.NextInternal` | daemons/receive.c:45-95 | a read moves rptr by at most one, stays inside the data and returns what is there |
| `RecBuffers.RecBuffer.GetNextInternal` | daemons/receive.c:45-95 | buffered data first, then the device until a value, a long timeout or a full buffer |
| `Synchronising.ReadWaits` | daemons/receive.c:45-95 | a read gets the next signal if and only if the timeouts reported before it come to less than twice the time expected or 100 ms |
| `RecBuffers.RecBuffer.UngetSignals` | daemons/receive.c:161-172 | one or two values are put back and taken off the sum |
| `RecBuffers.RecBuffer.Clear` | daemons/receive.c:116-159 | unread data moves to the beginning, or the next value is fetched |
| `RecBuffers.RecBuffer.SyncPendingPulse` | daemons/receive.c:209-222 | a pending pulse has to be read within tolerance |
| `RecBuffers.RecBuffer.SyncPendingSpace` | daemons/receive.c:224-237 | a pending space has to be read within tolerance |
| `RecBuffers.RecBuffer.MatchPulse` | daemons/receive.c:239-262 | expectpulse, the pending part taken off what is read |
| `RecBuffers.RecBuffer.MatchSpace` | daemons/receive.c:264-287 | expectspace, likewise |
| `Receive.ExpectOne` | daemons/receive.c:289-333 | a failed attempt puts back only what was read: rptr stays between 0 and wptr |
| `Receive.GetHeader` | daemons/receive.c:417-473 | the same for the header, although values are put back also when nothing was read |
| `Receive.ReceiveDecode` | daemons/receive.c:928-1142 | whatever the device delivers, timeouts included, the receive indices stay in bounds through a whole decode, for every RC-MM remote, every XMP remote with a unit to divide by and every other one whose ones begin with a pulse where they are put back as two signals |
| `Receiver.TryOne` | daemons/receive.c:289-333 | expectone over the buffer |
| `Receiver.TryZero` | daemons/receive.c:335-379 | expectzero over the buffer |
| `Receiver.ReadBits` | daemons/receive.c:863-888 | each bit is tried as a one and then as a zero, and shifted into the code |
| `Receiver.ReadPairs` | daemons/receive.c:558-593 | the RC-MM branch of get_data |
| `Receiver.ReadNibbles` | daemons/receive.c:830-861 | the XMP branch of get_data |
| `Receiver.FindSync` | daemons/receive.c:381-415 | sync_rec_buffer: reads up to a space long enough to have ended the last frame, and no further than its limit |
| `Synchronising.SyncSkips` | daemons/receive.c:381-415 | the first space that is long enough for the gap expected is taken, if no more than eight spaces come before it |
| `Synchronising.OnlySpaceBegins` | daemons/receive.c:116-159 | after the buffer was cleared, nothing is decoded if the device has nothing, reports a timeout, gives up or begins with a pulse |
| `Receiver.ReadHeader` | daemons/receive.c:417-473 | get_header over the buffer |
| `Receiver.FindGapAfter` | daemons/receive.c:507-525 | get_gap over the buffer |
| `Receiver.ReadRepeat` | daemons/receive.c:527-551 | get_repeat over the buffer |
| `Receiver.ReadBody` | daemons/receive.c:1063-1100 | lead, pre-data, code, post-data, trail and foot in order, each failure ending the attempt |
| `Receiver.Decode` | daemons/receive.c:928-1142 | the decoder as code computes what the decoder as a function says, from any buffer state |
| `RoundTrip.NextReads` | daemons/receive.c:45-95 | as long as signals follow each other the next one is read and the rest is unchanged, whatever comes later |
| `RoundTrip.BackTwice` | daemons/receive.c:161-172 | putting two values back restores what was ahead |
| `RoundTrip.PulseTry` | daemons/receive.c:239-262 | with a pulse ahead, merged with a pending one or not, expectpulse accepts exactly within tolerance, and one step back undoes a refusal |
| `RoundTrip.SpaceTry` | daemons/receive.c:264-287 | the same for spaces |
| `RoundTrip.SpaceRefused` | daemons/receive.c:264-287 | expectspace refuses a pulse, merged run or not, if the tolerance cannot take it for the pending part, and one step back undoes it |
| `BitRoundTrip.BitRoundTrip` | daemons/receive.c:289-379 | any bit, biphase or pulse-first, is decoded as what it is, and what follows is seen next |
| `BitRoundTrip.BitsRoundTrip` | daemons/receive.c:863-888 | decoding the air form of any bits, doubled ones included, gives the bits, whatever is pending before and after |
| `NoisyBits.OneTakenExactly` | daemons/receive.c:318-331 | a pulse-first bit is taken for a one if and only if its pulse, and its space where a trail pulse bounds it, are within the tolerance |
| `NoisyBits.ZeroTakenExactly` | daemons/receive.c:364-377 | for a zero likewise |
| `NoisyBits.BiphaseOneHeard` | daemons/receive.c:291-307 | a biphase bit that begins with a space is taken for a one if and only if that is within the tolerance, merged with the space before it or not |
| `NoisyBits.BiphaseZeroHeard` | daemons/receive.c:337-353 | one that begins with a pulse is not taken for a one, and for a zero if and only if the pulse is within the tolerance |
| `NoisyBits.OwedSpaceExactly` | daemons/receive.c:224-237 | a space left owing is found if and only if it is within its tolerance, and otherwise no bit is decoded after it |
| `NoisyBits.OwedPulseExactly` | daemons/receive.c:209-222 | a pulse left owing likewise, and otherwise no one is decoded after it |
| `NoisyBits.NoisyBit` | daemons/receive.c:289-379 | any bit whose two parts are within their tolerances is decoded as what it is, if the timings are clear of each other |
| `NoisyBits.NoiseConfuses` | daemons/receive.c:318-377 | if they are not, a zero within its tolerances passes for a one, for pulse-first remotes without lead pulse |
| `NoisyFrames.NoisyData` | daemons/receive.c:863-888 | any bits are decoded to themselves in spite of noise, doubled and merged ones included |
| `NoisyFrames.NoisyPair` | daemons/receive.c:574-591 | an RC-MM symbol within its tolerance is recognised if it is clear of those tested before it, and not otherwise within it |
| `SymbolRoundTrip.PairRecognised` | daemons/receive.c:574-591 | every RC-MM symbol is recognised if no sum is within tolerance of one tested before it |
| `SymbolRoundTrip.PairsRoundTrip` | daemons/receive.c:558-593 | RC-MM data is decoded to the bits sent |
| `SymbolRoundTrip.NibbleTolerance` | daemons/receive.c:830-860 | all XMP nibbles survive an error of the symbol length if and only if it is at least minus half a unit and less than half a unit |
| `SymbolRoundTrip.NibblesRoundTrip` | daemons/receive.c:830-860 | XMP data is decoded to the bits sent |
| `SymbolRoundTrip.OwedSpaceMakesZero` | daemons/receive.c:566-567 | a space that is owed before RC-MM or XMP data and fails to arrive makes that data 0, not a failure |
| `FrameRoundTrip.DataRoundTrip` | daemons/receive.c:553-889 | get_data after send_data gives the word with toggles applied, for every protocol |
| `FrameRoundTrip.HeaderSeen` | daemons/receive.c:417-473 | the header is accepted and leaves what follows it |
| `FrameRoundTrip.BodySeen` | daemons/receive.c:1063-1100 | pre-data, code and post-data are read back with the signals between them, lead, trail and foot |
| `FrameRoundTrip.FrameSeen` | daemons/receive.c:1063-1142 | a whole frame, of up to 64 bits with each word below 64, is decoded and the gap after it is computed from its length |
| `DecodeRoundTrip.DecodeUndoesSend` | daemons/transmit.c:316-331 | from a frame as it is on the air, receive_decode returns the words sent and the remaining gaps; after a frame of the same remote, if the frame does not pass for its repeat code |
| `DecodeRoundTrip.DecodeUndoesSendBuffer` | daemons/transmit.c:352-427 | the same from the contents of the transmit buffer |
| `DecodeRoundTrip.WhateverFollows` | daemons/receive.c:928-1142 | a frame and a gap that is long enough are decoded to the words sent, whatever events the device delivers after them; where a repeat code is looked for, if the frame or what follows it differs from one |
| `DecodeRoundTrip.UnlikeIsTold` | daemons/receive.c:952-988 | a frame that itself differs from a repeat code is told from one whatever follows |
| `NoisyFrames.NoisyFrameIsReceived` | daemons/receive.c:928-1142 | a first frame of a pulse-first or biphase remote, each signal off by no more than its tolerance, is decoded to the words sent |
| `NoisyFrames.NoisyAirIsReceived` | daemons/receive.c:928-1142 | the same in terms of the durations on the air, of which each is off by no more than the tolerance for its last part |
| `NoisyFrames.HalfBitsAreRobust` | daemons/receive.c:209-287 | equal half-bits stand noise of 33 percent, and a third of a half-bit |
| `NoisyFrames.NecPulseIsResilient` | remotes/generic/NEC-pulse.conf:8-24 | the remote configured there stands noise up to its tolerance |
| `DoubledBits.MceIsResilient` | remotes/mceusb/lircd.conf.mceusb:39-52 | the RC-6 remote configured there, too |
| `FrameEnds.HeaderDecides` | daemons/receive.c:417-473 | get_header succeeds if and only if the signals ahead begin with a pulse within the tolerance for the header, or for RC-MM with a pulse and space together, and under NO_HEAD_REP with a space that fits |
| `FrameEnds.HeaderIsAskedFor` | daemons/receive.c:990-998 | signals that do not are refused where a header is configured, but under NO_HEAD_REP after a gap that is not too long |
| `FrameEnds.HeaderlessExactly` | daemons/receive.c:990-998 | a frame sent without its header is decoded, to its words, if and only if NO_HEAD_REP is set, the gap before it is no longer than the greatest gap or within the tolerance for that, and no repeat code with header is looked for |
| `Examples.ShortHeaderIsRefused` | daemons/receive.c:457-468 | a header space of 3300 in place of 4500 is refused at a tolerance of 30 percent |
| `FrameEnds.GapIsAskedFor` | daemons/receive.c:1105-1115 | a frame is decoded, to its words, if and only if silence follows, or a space of the gap configured, of what the length leaves of it, or of 1 ms for RC-MM, within the tolerance |
| `FrameEnds.GapsAreExtremes` | daemons/ir_remote.h:266-282 | with two gaps configured the shorter one is the least gap and the longer one the greatest |
| `DecodeRoundTrip.FrameTakenForRepeat` | daemons/receive.c:952-983 | otherwise the last code is decoded in its place |
| `RepeatCodes.RepeatDecides` | daemons/receive.c:527-551 | get_repeat accepts exactly the signals that agree with its expectations one by one and end in a gap, and leaves the input to be read again if it refuses |
| `RepeatCodes.OwnDecides` | daemons/receive.c:952-988 | after a frame of the same remote, signals that are accepted so are decoded to the last code, and all others are read again from the beginning as a frame |
| `DecodeRoundTrip.RepeatCodeIsReceived` | daemons/receive.c:952-983 | a repeat code, with header, lead pulse and trail where configured, is decoded to pre-data, last code and post-data as a repetition, with what is left of the gap |
| `DecodeRoundTrip.RepeatBufferIsReceived` | daemons/transmit.c:308-314 | the same from the contents of the transmit buffer |
| `DecodeRoundTrip.BiphaseTaken` | daemons/receive.c:531-535 | the repeat code of a biphase remote is accepted if and only if there is no trail pulse and the lead pulse or the owed header, the repeat lengths and the following signals fit by tolerance |
| `DecodeRoundTrip.BiphaseRepeat` | daemons/receive.c:952-988 | what the receiver does with it: the last code if accepted, else the signals are read as a frame |
| `CodeSurvives.HalfBitTolerance` | daemons/receive.c:209-287 | equal half-bits, eps below 50 and aeps below a half-bit keep merged runs apart |
| `CodeSurvives.BeginsTransmissible` | daemons/transmit.c:316-331 | a lead pulse, a header that is not decided on at once, or pulse-first data make a frame that loses nothing at its beginning |
| `CodeSurvives.CodeIsReceived` | daemons/receive.c:928-1142 | without toggles the receiver gets pre-data, code and post-data exactly as configured, whatever it decoded before; after a frame of the same remote, if the frame does not pass for its repeat code |
| `CodeSurvives.FramesAreTold` | daemons/receive.c:952-988 | if the header, or the pulse or space of either first bit, differs from what is expected of a repeat code, no frame of the remote passes for one |
| `CodeSurvives.CodeIsAlwaysReceived` | daemons/receive.c:928-1142 | such a remote is received in any state |
| `CodeSurvives.NecPulseIsSound` | remotes/generic/NEC-pulse.conf:8-24 | the remote configured there, whose repeat code has the lengths of its header, is one |
| `CodeSurvives.GenericXmpIsSound` | remotes/generic/XMP:1-18 | the XMP remote that is configured there, with any pre-data, meets what the round trip asks of a remote |
| `CodeSurvives.ZeroDecodedExactlyIfDistinct` | daemons/receive.c:318-378 | a pulse-first zero is decoded if and only if pulses differ, or spaces do where they are checked at once |
| `Repetitions.HeaderRefused` | daemons/receive.c:417-473 | a header that is not there is refused, and all that was read for it is put back |
| `Repetitions.DecodeUndoesRepetition` | daemons/receive.c:990-1142 | a repetition, with its header or without, is decoded to the words sent if its foot is there and the gap before it is not too long |
| `MissingFoot.RepetitionWithoutFoot` | daemons/receive.c:475-482 | a repetition sent without its foot is decoded if and only if the next space, less what the frame ends in, passes for that of the foot, the next pulse for its pulse, and a gap or silence follows; it is then decoded to its words |
| `Examples.FootIsMissed` | daemons/receive.c:475-482 | a remote with NO_FOOT_REP and a repetition of it that is not decoded |
| `Concatenation.JoinedOnAir` | daemons/transmit.c:458-475 | on the air the first frame of a buffer is followed by its gap together with the space that it ends in, and then by all other frames |
| `Concatenation.NextArrives` | daemons/receive.c:116-159 | once a frame that was decoded is cleared from the receive buffer, the gap after it and the next frame are read, with all that followed them |
| `Concatenation.GapIsEnough` | daemons/receive.c:1105-1115 | the gap that was sent after a frame is at least the one that the decoder asks for, unless RC-MM or a repeat_gap under constant length make a difference |
| `Concatenation.BufferIsDecoded` | daemons/hw_default.c:376-383 | the frames of one buffer are decoded one after the other: a receiver that clears its buffer after each of them finds every frame whole at its turn, takes the space before it for the gap it expects, and gets its words, or for a repeat code the last code |
| `Recogniser.RepeatsBeginning` | daemons/ir_remote.c:348-357 | the inner comparison says whether the codes seen repeat the beginning of the sequence |
| `Recogniser.Search` | daemons/ir_remote.c:335-379 | the search on a mismatch finds the longest fallback |
| `Recogniser.FindButton` | daemons/ir_remote.c:308-382 | all buttons are advanced in place; the first that completes is reported, or else the last that was hit |
| `Recogniser.Recognises` | daemons/ir_remote.c:313-382 | one code: the button completes exactly if its sequence ends the codes seen, and `current` is again the longest proper prefix that does |
| `Recogniser.RunKeepsLongestPrefix` | daemons/ir_remote.c:313-382 | the same over any stream of codes |
| `Recogniser.StreamReportsFirst` | daemons/ir_remote.c:308-382 | over any stream, whenever some button completes, the first in list order is reported |
| `Decode.UntoggleBits` | daemons/ir_remote.c:266-285 | the loop over mask bits takes the toggle mask off post-data, code and pre-data |
| `Decode.DataMatchesBitwise` | daemons/ir_remote.c:286-302 | pre-data and post-data agree with the configuration in every bit that is neither a toggle bit nor ignored at its place in the whole word |
| `Decode.RemoteState.GetCode` | daemons/ir_remote.c:250-406 | get_code: pre-data and post-data checked, buttons advanced, the second frame of a toggled pair held against the first |
| `Decode.SecondFrameDecides` | daemons/ir_remote.c:392-403 | at an odd mask state a frame that is not of the button of the frame before it makes no event and begins the pair anew |
| `Decode.RemoteState.RecordCode` | daemons/ir_remote.c:408-466 | set_code: what a repetition and what a new press do to the state |
| `HeldSequences.SequenceIsCounted` | daemons/ir_remote.c:524-545 | a button with several codes that is held: the frame that completes them for the q-th time is announced with count q less suppressed repeats, for XMP from its second code on, and no other frame |
| `ToggleLock.UntoggleCancels` | daemons/transmit.c:250-252 | the receiver gets the plain words if and only if its mask state has the parity of the sender's, or no bit that is sent is masked |
| `ToggleLock.SenderAndReceiverLock` | daemons/ir_remote.c:432-459 | over any run of frames of one button, mask states stay equal and exactly the second frame of each pair makes an event, numbered 0, 1, 2, ... less suppressed repeats |
| `ToggleBits.SentCodeMatches` | daemons/ir_remote.c:51-55 | a code sent with toggle bits is taken for itself if and only if the bits that are not ignored are set or flipped together, or there is one bit only |
| `ToggleBits.StartsTogether` | daemons/config_file.c:1019-1027 | in the state that reading the configuration leaves they go together if and only if they are alike in the first code |
| `ToggleBits.FirstPress` | daemons/config_file.c:1019-1027 | the first press sends a single toggle bit as 1 |
| `ToggleBits.ReceivedTogether` | daemons/ir_remote.c:455-458 | after a frame that was received, if and only if they are alike in its code: sending uses the same state |
| `ToggleBits.PressKeepsTogether` | daemons/lircd.c:1505-1507 | a request to send keeps them together, or apart |
| `ToggleBits.SentButtonIsFound` | daemons/ir_remote.c:250-406 | sent with toggle bits that go together, or without any, a button is found as the first that has its code |
| `Examples.MixedToggleBits` | daemons/config_file.c:1019-1027 | a remote of two toggle bits and a button of which a press is not recognised |
| `EndToEnd.SentButtonIsAnnounced` | daemons/ir_remote.c:499-556 | a button that is sent, its toggle bits flipped or not, is decoded, recognised and announced with the right repeat count, and its toggle bits are remembered; after a frame of the same remote, if the frame does not pass for its repeat code |
| `EndToEnd.HeldButtonIsAnnounced` | daemons/ir_remote.c:499-556 | a button held: the frame and every repeat code after it, or every repetition with the same toggle bits where there is no repeat code, is announced, numbered in order |
| `EndToEnd.ToggledButtonIsAnnounced` | daemons/ir_remote.c:499-556 | a button held on a remote with a toggle mask: of the frames sent, received and decoded, exactly every second one is announced, numbered in order, from an even mask state or after a gap that resets it |
| `EndToEnd.NewFrameIsLate` | daemons/receive.c:405-411 | what is no repetition of the last frame of the same remote comes late enough to reset the mask state |
| `EndToEnd.NewPressIsResynced` | daemons/receive.c:405-411 | a new press begins with mask state 0, whatever was left behind by the last one |
| `Releases.StepIsMissOrRecord` | daemons/ir_remote.c:514-563 | what one remote makes of a decoded frame is either a miss, which sets its mask state to 0, or recorded by set_code |
| `Releases.RunAlternates` | daemons/lircd.c:2012-2037 | for single codes without toggle mask, every interleaving of decoded signals and timeouts keeps the log in order and the state that goes with it |
| `Releases.OneReleaseBetweenPresses` | daemons/release.c:88-137 | between a first press and the next first press there is exactly one release, of the button pressed, right before the latter |
| `Releases.RepeatsOnlyWhileHeld` | daemons/ir_remote.c:425-446 | a repeat is announced only after the presses 0, 1, 2, ... of the same button, with nothing in between |
| `Releases.HoldSurvivesGarbage` | daemons/ir_remote.c:432-461 | a button that is held outlives a signal that nothing decodes: its next repetition is counted on, with no release in between |
| `WithoutReleases.QuietRunLogsPresses` | daemons/lircd.c:1767-1780 | over every run without release events the log holds exactly the presses that the decodes announced, in order |
| `WithoutReleases.QuietRunIsFullRun` | daemons/lircd.c:1767-1780 | every such run is a run with release events whose log is taken less the releases |
| `Lircd.Server.RegisterButtonPress` | daemons/release.c:52-69 | a first press while another is held makes the release of that one due |
| `Lircd.Server.CheckRelease` | daemons/release.c:88-111 | a release that is due is reported once |
| `Lircd.Server.TriggerRelease` | daemons/release.c:113-137 | the held button is released and its remote told so |
| `Lircd.Server.InputMessage` | daemons/lircd.c:1767-1780 | the recursive call puts a due release before the message |
| `Lircd.Server.Timeout` | daemons/lircd.c:1938-1947 | the timer of the main loop releases the held button |
| `Lircd.Server.ResetSequences` | daemons/ir_remote.c:529-533 | after an event all buttons of all remotes start over |
| `Lircd.Server.StartOver` | daemons/ir_remote.c:529-536 | all sequences of all remotes start over, but the one that an XMP remote completed goes on from its second code |
| `Lircd.Server.Conclude` | daemons/ir_remote.c:524-545 | half of a toggled pair and the middle of a sequence leave all sequences as they are; a complete event starts them over, and is announced unless it is a suppressed repeat |
| `Lircd.Server.Decode` | daemons/ir_remote.c:499-568 | the first remote in the list that decodes the signals and knows the button announces it; those before it lose their mask state, those after it are untouched; if there is none, the decoder forgets the last remote, while set_code keeps the one decoded last; when a button is announced all sequences start over |
| `Repeats.BurstIsPrepared` | daemons/transmit.c:458-475 | the frames and repeats left that one transmission accounts for are those of the loop that prepares it |
| `Repeats.OnceConserves` | daemons/lircd.c:1098-1146 | at any time frames sent and repeats to do make up the total of SEND_ONCE |
| `Repeats.OnceSendsAll` | daemons/lircd.c:1477-1545 | SEND_ONCE ends, with exactly that many frames sent |
| `Repeats.OnceTotalIsGreater` | daemons/lircd.c:1511-1516 | the total is one and the greater of both counts if and only if gaps are long or a count is 0 |
| `Repeats.StartTransmitsBetween` | daemons/lircd.c:1547-1590 | with at most one SEND_STOP at any time there are at most repeat_max repeats, and at least min_repeat unless a send fails or is interrupted |
| `Repeats.MinimumIsMet` | daemons/lircd.c:1547-1590 | over all finished runs of timers and SEND_STOPs min_repeat is met if and only if frames share a buffer, or it equals repeat_max, or it is below and at most one SEND_STOP came before it was done, or it is above and at least one did |
| `Repeats.StartInOneBuffer` | daemons/lircd.c:1477-1545 | with frames sharing a buffer, the first timer ends the run and min_repeat comes on top of repeat_max, however many timers follow |
| `Repeats.TwoStops` | daemons/lircd.c:1568-1573 | two SEND_STOPs at once miss the minimum in every run that follows, if it is above 0 and below repeat_max |
| `Repeats.DisturbanceEnds` | daemons/lircd.c:1098-1146 | after another code or a failed transmission nothing more is sent |
| `Repeats.RequestsAreRefused` | daemons/lircd.c:1492-1500 | a request while a button is repeated changes nothing |
| `Repeats.Repeater.Transmit` | daemons/ir_remote.c:570-598 | a transmission sends the frames that share its buffer |
| `Repeats.Repeater.Request` | daemons/lircd.c:1477-1545 | a request while repeating is refused, else the countdown is set |
| `Repeats.Repeater.Alarm` | daemons/lircd.c:1098-1146 | the timer sends the next frame, or stops after another code, a failure or the last repeat |
| `Repeats.Repeater.SendStop` | daemons/lircd.c:1547-1590 | SEND_STOP shortens the countdown to the minimum or stops |
| `Factor.FactorPreKeeps` | daemons/irrecord.c:1110-1172 | get_pre_data keeps every whole word if and only if the further codes of the first button agree in the leading bits that all buttons share; widths add up and codes fit |
| `Factor.WholeBytesAreTaken` | daemons/irrecord.c:1145-1148 | all common bits are taken if they or those left are whole bytes, and otherwise as many whole bytes as there are in them |
| `Factor.FactorPostKeeps` | daemons/irrecord.c:1174-1232 | the same for get_post_data |
| `Factor.FactoringKeepsWords` | daemons/irrecord.c:843-844 | one after the other they keep every whole word of every code and sequence, and the bit count, if the first button is a single code |
| `Factor.SequenceOfFirstButtonIsLost` | daemons/irrecord.c:1122-1138 | an example of bits lost from the first button's sequence |
| `Factor.FactorPreLeavesDiffering` | daemons/irrecord.c:1139-1146 | after get_pre_data the codes are used up or not all alike, as get_post_data needs |
| `Factor.RestorePreKeeps` | daemons/irrecord.c:1336-1358 | remove_pre_data keeps every whole word |
| `Factor.RestorePostKeeps` | daemons/irrecord.c:1360-1384 | remove_post_data keeps every whole word |
| `Factor.RestoreUndoesFactor` | daemons/irrecord.c:1336-1384 | both together undo get_pre_data and get_post_data |
| `Irrecord.CompareCodes` | daemons/irrecord.c:1118-1138 | comparing each code with the one before finds the positions in which all agree |
| `Irrecord.CountLeading` | daemons/irrecord.c:1139-1143 | ones at the front counted by shifting them out |
| `Irrecord.CountTrailing` | daemons/irrecord.c:1203-1207 | ones at the end, likewise |
| `Irrecord.Recording.GetPreData` | daemons/irrecord.c:1110-1172 | the method in place computes the function the lemmas are about |
| `Irrecord.Recording.GetPostData` | daemons/irrecord.c:1174-1232 | likewise |
| `Irrecord.Recording.RemovePreData` | daemons/irrecord.c:1336-1358 | likewise |
| `Irrecord.Recording.RemovePostData` | daemons/irrecord.c:1360-1384 | likewise |
| `ReverseCompat.KickReverse` | daemons/config_file.c:984-1003 | pre-data, post-data and the codes of the buttons are reversed in place, sequences are not |
| `ReverseCompat.ReportsWholeWord` | daemons/ir_remote.c:468-477 | the code reported is the whole word made of values that fit |
| `ReverseCompat.ReverseReportsFileOrder` | daemons/ir_remote.c:478-484 | for a REVERSE remote the code reported is post-data, code and pre-data as written in the file |
| `SortRemotes.LinkIn` | daemons/config_file.c:530-539 | linking a node in keeps the list and its nodes |
| `SortRemotes.InsertNode` | daemons/config_file.c:524-539 | one turn of the loop inserts the node in the list sorted so far |
| `SortRemotes.FindPlace` | daemons/config_file.c:524-529 | the scan stops at the first node with more bits |
| `SortRemotes.SortByBitCount` | daemons/config_file.c:515-545 | the list is relinked in place into its insertion sort, every node once |
| `SortRemotes.SortIsStable` | daemons/config_file.c:515-545 | that is a stable permutation in ascending order of bit count |
| `RawCodes.PrintButton` | daemons/dump_config.c:219-246 | name, six numbers a line, an empty line |
| `RawCodes.LinesAreFull` | daemons/dump_config.c:219-246 | line i has the six numbers from 6 i on, the last line what is left |
| `RawCodes.Reader.ReadLine` | daemons/config_file.c:653-941 | what one line of a raw_codes section does to the reader |
| `RawCodes.SectionRoundTrip` | daemons/config_file.c:883-937 | a printed section is read back, names and signals, if and only if all signals are of odd length; otherwise reading fails |
| `Flags.PrintFlags` | daemons/dump_config.c:46-64 | the first name of each flag set, joined by bars |
| `Flags.ParseFlags` | daemons/config_file.c:250-293 | the text cut at bars, each name looked up without regard to case, unknown names and a second protocol refused |
| `Flags.FlagsRoundTrip` | daemons/config_file.c:250-293 | printed flags are read back if and only if they name at most one protocol |
| `Flags.AllFlagsUnambiguous` | daemons/config_file.h:26-47 | no two names in the table of flags are the same up to case |
| `Uirt2.SetDataBit` | daemons/hw_uirt2_raw.c:398-414 | one bit of the bytes is set, all others stay |
| `Uirt2.CalcDataBit` | daemons/hw_uirt2_raw.c:416-437 | the first table entry in use that fits, or a free one |
| `Uirt2.Compress` | daemons/hw_uirt2_raw.c:439-543 | the loop over durations, up to the call that sends the structure |
| `Uirt2.CompressionIsFaithful` | daemons/hw_uirt2_raw.c:480-543 | of at most 128 bits: what the device makes of the structure, whatever the checksum, is the buffer, as many durations, each the same in whole units or within tolerance, all repeated parts alike |
| `Uirt2.TwoLengthsCompress` | daemons/hw_uirt2_raw.c:416-437 | any signal of at most two pulse lengths and two space lengths near whole units is compressed whole |
| `Uirt2.OneBitTooMany` | daemons/hw_uirt2_raw.c:519-526 | every such signal of 131 durations is accepted with 129 bits |
| `Uirt2.BitsOverflow` | daemons/hw_uirt2_raw.c:519-526 | more than 128 bits are accepted if and only if there are 131 durations that are sent once; 130 always fit |
| `Uirt2.OverflowIsFaithful` | daemons/hw_uirt2_common.c:672-682 | the device then sends the buffer if and only if the duration that the lowest bit of the checksum chooses is close to the last one |
| `Examples.LastPulseIsLost` | daemons/hw_uirt2_raw.c:519-526 | 131 durations whose message has an even checksum at every frequency, so that older firmware sends the last as 500 instead of 1000 microseconds |
| `Uirt2.ChecksumCompletes` | daemons/hw_uirt2_common.c:167-177 | with the checksum the bytes of the message add up to 0 modulo 256 |
| `Uirt2.OlderFirmwareRepeats` | daemons/hw_uirt2_common.c:675-679 | older firmware sends the whole buffer unless it is 255 durations in parts of eight |
| `Uirt2.ManyParts` | daemons/hw_uirt2_raw.c:498-517 | the transmit buffer is taken for more than 31 parts if and only if it has 255 durations and parts of eight |
| `Examples.LastPartIsLost` | daemons/hw_uirt2_common.c:675-679 | such a buffer, of which one part too few is sent |
| `Uirt2.CalcBitsLength` | daemons/hw_uirt2_common.c:269-303 | the time of the bits is the sum of the table entries they choose |

## Left out

- SPACE_FIRST remotes: a space that matched clears what is pending before a later step back, which needs further conditions on distinctness.
- Transmit.SendBit: without the SPACE_FIRST order.
- Transmit.SendBits: without the SPACE_FIRST order.
- Receive.ExpectOne: without the SPACE_FIRST order.
- Receiver.TryOne: without the SPACE_FIRST order.
- Receiver.TryZero: without the SPACE_FIRST order.
- GOLDSTAR, GRUNDIG, BO and SERIAL: the transmitter refuses them, so there is no encoder to invert.
- Receive.GetHeader: without the header of BO remotes.
- Receiver.ReadHeader: without the header of BO remotes.
- Raw remotes in transmission and decoding, LIRCCODE devices (`map_code`), learned codes (DYNCODES) and frequency events.
- InitSend.Sender.SendPass: without raw codes and the simulated transmission.
- InitSend.Sender.GoOn: without the unrolling of raw signals.
- InitSend.Sender.PassOnce: without raw codes and the simulated transmission.
- InitSend.Sender.Prepare: without raw codes, the simulated transmission, and the refusal of GRUNDIG, GOLDSTAR, SERIAL and BO remotes.
- InitSend.PreparedBuffer: not for configured lengths of 0, nor for repetitions that begin with a space.
- Concatenation.BufferIsDecoded: not for repetitions without their foot, which `MissingFoot` is about, nor for repeat codes of biphase remotes, which `DecodeRoundTrip.BiphaseTaken` is about.
- RecBuffers.RecBuffer.Clear: without the branch for LIRCCODE devices.
- Zero durations and signed overflow of `lirc_t`: durations are natural numbers, and the round trips ask for positive ones.
- Words of 64 bits whose bits are all one: the decoder takes that value for failure; the round trips are for pre-data, code and post-data of fewer than 64 bits each, up to 64 in all.
- RecBuffers.NextInternal: the time that passes before a read is part of the timeout events of the device.
- RecBuffers.RecBuffer.GetNextInternal: the time that passes before a read is part of the timeout events of the device.
- Sockets, replies to clients, message overflow, reloading of the configuration, peers and linux input events; transmissions between decodes, which also change `last_code`.
- Include files, number syntax and sections other than raw_codes and flags of the configuration file.
- The interactive recording and the heuristics of irrecord.
- FrameRoundTrip.FrameSeen: for first frames; those of a repetition are in `Repetitions`, where a header that is left out has to be told from the data.
- NoisyFrames.NoisyAirIsReceived: not for the repeat codes, repetitions without header or foot, and a header that leads repeat codes (REPEAT_HEADER), nor for the frames of RC-MM and XMP, whose symbols `NoisyFrames.NoisyPair` and `SymbolRoundTrip.NibbleTolerance` are about.
- NoisyBits.NoiseConfuses: not for biphase remotes, nor for a lead pulse that is lost with a zero.
- Receiver.FindSync: does not reset toggle states after a long gap; `EndToEnd.Resynced` does.
- Lircd.Server.Decode: without that reset, which is part of what each remote decodes.
- Receive.ReceiveDecode: without raw remotes and LIRCCODE devices.
- Receiver.Decode: without raw remotes and LIRCCODE devices.
- Receiver.ReadBody: for remotes whose ones have a pulse where two signals are put back.
- EndToEnd.ToggledButtonIsAnnounced: for remotes that repeat the frame, not a repeat code.
- Decode.RemoteState.RecordCode: without the fields for the gaps and the time of the last frame; the code reported is in `ReverseCompat`.
- ToggleLock.SenderAndReceiverLock: without a toggle bit mask, and from an even mask state; `ToggleLock.UntoggleCancels` says what an odd one does to the first frame, and a long gap makes it even (`EndToEnd.ToggledButtonIsAnnounced`).
- HeldSequences.SequenceIsCounted: without a toggle mask.
- EndToEnd.HeldButtonIsAnnounced: not for repeat codes of a remote with toggle bits.
- Releases.RunAlternates: for single codes without toggle mask and with release events enabled; the step relation itself, and `Lircd.Server`, cover sequences and toggle masks too.
- Lircd.Server.InputMessage: without linux input events.
- Repeats.BurstIsPrepared: for gaps that are all short or all long, and for single codes.
- Repeats.Repeater.Transmit: without waiting for the gap, the time of sending and `last_code`.
- Repeats.Repeater.Request: without a first transmission that fails, and without the reset of toggle states.
- Repeats.Repeater.SendStop: without the comparison of names and the reset of the toggle mask state.
- RawCodes.Reader.ReadLine: takes an include line for an error.
- Uirt2.Compress: takes the unit as a parameter instead of asking the device for its version.
