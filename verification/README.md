# AES-128 engine and serial bus decoders: a verified model

The Dafny files model a clocked AES-128 peripheral and prove what it computes, together with the
independent reference model that the repository's differential test compares it with, and two
serial bus decoders.

Each hardware module is modelled as its registers, its inputs, one function that gives every register
after a clock edge from the values before it, and a class whose `Tick` changes the registers in place
and is proved to take exactly that step. Registers without a reset start with arbitrary values.

| file | what it holds |
|---|---|
| `Gf256.dfy`, `SBox.dfy` | the field GF(2^8), polynomials modulo 0x11b, the two substitution tables |
| `Blocks.dfy` | 16-byte blocks, XOR, packing into bus words, the block as a 128-bit number |
| `Rounds.dfy`, `Cipher.dfy` | the round transformations and their inverses, the key schedule, both cipher directions |
| `KeyExpand.dfy`, `Core.dfy`, `Chain.dfy`, `Registers.dfy` | the four nested clocked modules |
| `Modes.dfy` | ECB, CBC and CTR as a machine over block requests, and their laws over messages |
| `Driver.dfy` | the bus driver's transfers, and single blocks and whole messages through the registers, with literal addresses and CTRL words |
| `KnownAnswer.dfy` | the cipher example of FIPS-197 appendix B, derived step by step |
| `Reference.dfy`, `DiffTest.dfy` | the reference model with its loops and tables, and the differential test as a program |
| `I2cSlave.dfy`, `I2cBus.dfy` | the I2C slave, bus safety, and transactions as waveforms |
| `SpiSlave.dfy` | the SPI slave and its full-duplex exchange |

How the hardware proofs are layered: every reachable state of the core (`Core.Refines`) and of the chain
(`Chain.ChainRefines`) stands for a countdown, idle or holding one accepted job and the number of edges
since. Each clock edge is a step of the countdown, so properties of runs are proved on the countdown and
carried back. Messages are then streams of accepted starts and loads, whatever else happens on the
inputs between them.

## Results that are not plain confirmations

- START and LOAD_IV in one CTRL write: the core is given the IV from before the load and the completion
  uses the loaded one. `Chain.StartWithLoad` proves that the outcome is that of loading first if and only
  if the mode is ECB, or CBC decryption, or the load changes nothing.
- LOAD_IV in the cycle in which an operation completes exchanges the IV registers and the running IV
  (`Registers.LoadInDoneCycleExchanges`). It keeps the two equal if and only if they were equal before.
- A DONE clear in the done cycle wins over the set (`Registers.DoneMeaning`).
- The chain takes IV loads while it is busy (`Chain.LoadsInFlight`); only the register front end holds them
  back.
- `docs/specs/aes.md` gives about 21 cycles a block. The core takes exactly 21 edges after the one that
  accepts a start and the chain exactly 22. The register table there has no MODE field and no IV
  registers; the code has both and is what is modelled.

## Model

| member | source | states |
|---|---|---|
| Gf256.XTimeAdd | blocks/aes/rtl/aes_pkg.vh:169-174 | multiplication by x is linear over XOR |
| Gf256.GMulAdd | blocks/aes/dv/diff_sim_main.cpp:31-41 | the byte product distributes over XOR, for all operands |
| Gf256.GMulCommutes | blocks/aes/dv/diff_sim_main.cpp:31-41 | the byte product is commutative, though the loop treats its operands differently |
| Gf256.GMulAssociates | blocks/aes/dv/diff_sim_main.cpp:31-41 | the byte product is associative |
| Gf256.InverseUnique | blocks/aes/dv/diff_sim_main.cpp:44-47 | a byte has at most one inverse, so the search order does not matter |
| Gf256.ConstantMultipliers | blocks/aes/rtl/aes_pkg.vh:176-224 | each constant multiplier (2, 3, 9, 11, 13, 14) is the byte product by its constant |
| Gf256.RemainderUnique | blocks/aes/dv/diff_sim_main.cpp:31-41 | quotient and remainder modulo x^8+x^4+x^3+x+1 are unique |
| Gf256.GMulIsTheRemainder | blocks/aes/dv/diff_sim_main.cpp:31-41 | a byte is the product if and only if it is a remainder of the carry-less polynomial product modulo x^8+x^4+x^3+x+1 |
| SBox.InvOfFwd | blocks/aes/rtl/aes_pkg.vh:20-165 | the inverse table undoes the forward table on every byte |
| SBox.FwdOfInv | blocks/aes/rtl/aes_pkg.vh:20-165 | the forward table undoes the inverse table on every byte |
| SBox.SboxIsAffineOfInverse | blocks/aes/rtl/aes_pkg.vh:20-91 | the literal table is the affine map of any multiplicative inverse (of 0 for 0), as FIPS-197 section 5.1.1 defines it |
| SBox.InverseExists | blocks/aes/dv/diff_sim_main.cpp:44-47 | every non-zero byte has a non-zero inverse, so the search always ends in a hit |
| Blocks.UnpackPack | blocks/aes/rtl/aes.v:140-175 | a word of four bytes survives packing into a 32-bit bus word, first byte most significant |
| Blocks.OfValueRoundTrip | blocks/aes/rtl/aes_chain.v:127 | blocks and the numbers below 2^128 correspond (this direction: the number survives) |
| Blocks.XorBytes | blocks/aes/rtl/aes_core.v:179-184 | the block sum is exclusive or, byte by byte |
| Blocks.ValueIsPlaceValue | blocks/aes/rtl/aes_chain.v:127 | the number of a block is the sum of its bytes, byte i counting 256 to the 15 - i |
| Blocks.AdvanceAdds | blocks/aes/rtl/aes_chain.v:127 | advancing a counter block by n adds n to its number modulo 2^128 |
| Blocks.AdvanceTwice | blocks/aes/rtl/aes_chain.v:127 | counter increments add up modulo 2^128, wrap-around included |
| Rounds.SubBytesInverse | blocks/aes/rtl/aes_core.v:77-99 | SubBytes and InvSubBytes undo each other on every state, both ways |
| Rounds.ShiftRowsMovesRows | blocks/aes/rtl/aes_core.v:101-115 | the written-out permutation takes cell (r, c) from (r, (c + r) mod 4) |
| Rounds.InvShiftRowsMovesRows | blocks/aes/rtl/aes_core.v:117-127 | the inverse permutation takes cell (r, c) from (r, (c - r) mod 4) |
| Rounds.ShiftRowsInverse | blocks/aes/rtl/aes_core.v:105-127 | the two permutations undo each other, both ways |
| Rounds.MixColumnIsMatrix | blocks/aes/rtl/aes_core.v:129-151 | a mixed column is the circulant matrix of FIPS-197 applied to it with field products, in both directions |
| Rounds.MatricesInvert | blocks/aes/rtl/aes_core.v:129-151 | the product of the two matrices over GF(2^8) is the identity |
| Rounds.ApplyTwice | blocks/aes/rtl/aes_core.v:129-175 | applying two matrices is applying their product, from the field laws |
| Rounds.MixColumnsInverse | blocks/aes/rtl/aes_core.v:153-175 | MixColumns and InvMixColumns undo each other on every state, both ways |
| Cipher.RconIsPower | blocks/aes/rtl/aes_key_expand.v:44-61 | the round constant table holds the powers of 2 in GF(2^8) |
| Cipher.StepIsRecurrence | blocks/aes/rtl/aes_key_expand.v:77-87 | one step of the hardware schedule gives words 4r to 4r+3 of the 44-word recurrence of FIPS-197 section 5.2 |
| Cipher.DecryptTracksEncrypt | blocks/aes/rtl/aes_core.v:178-184 | entering decrypt round k, the state is ShiftRows of SubBytes of encryption's state after round k |
| Cipher.DecryptEncrypt | blocks/aes/rtl/aes_core.v:178-184 | decryption undoes encryption for every key and block |
| Cipher.EncryptDecrypt | blocks/aes/rtl/aes_core.v:178-184 | encryption undoes decryption for every key and block |
| Cipher.EncryptInjective | blocks/aes/rtl/aes_core.v:178-184 | under one key no two blocks have the same ciphertext |
| KnownAnswer.AppendixB | blocks/aes/dv/diff_sim_main.cpp:173-185 | the printed key and plaintext of FIPS-197 appendix B give the printed ciphertext, and back |
| KeyExpand.KeyExpander.Tick | blocks/aes/rtl/aes_key_expand.v:89-118 | the in-place update of state, index, done and the key array is the simultaneous step |
| KeyExpand.ExpandOne | blocks/aes/rtl/aes_key_expand.v:105-113 | each edge extends by one the prefix of round keys that belong to the current key |
| KeyExpand.ScheduleRun | blocks/aes/rtl/aes_key_expand.v:89-118 | after n edges rk[0..n] are the first n + 1 round keys of the recurrence, and done comes at n = 10 and not before |
| Core.AesCore.Tick | blocks/aes/rtl/aes_core.v:186-248 | the in-place update of the core and its expander is the simultaneous step |
| Core.CoreReset | blocks/aes/rtl/aes_core.v:187-190 | one reset edge reaches an idle state from any power-up values |
| Core.FinishExpansion | blocks/aes/rtl/aes_core.v:205-216 | after the last expansion step the state holds the first round key added and all 11 keys of the job |
| Core.RunRound | blocks/aes/rtl/aes_core.v:218-236 | each ROUND edge, in either direction, makes the data register the specified state of the next round |
| Core.FinishJob | blocks/aes/rtl/aes_core.v:238-243 | the FINAL edge raises done with the cipher of the accepted block on data_out and leaves all machines idle |
| Core.CoreSimulates | blocks/aes/rtl/aes_core.v:186-248 | every edge from every reachable state, reset or not, is a step of the countdown |
| Core.Lockstep | blocks/aes/rtl/aes_core.v:54-66 | in every state reached after a reset: an idle core has an idle expander, every index used is within 0..10, and in ROUND and FINAL all 11 round keys belong to one key |
| Core.BusyIgnoresInputs | blocks/aes/rtl/aes_core.v:194-203 | a core that is busy or not started changes no register because of its start, direction, key and data inputs |
| Core.BlockOperation | blocks/aes/rtl/aes_core.v:186-248 | done is raised on exactly the 21st edge after the accepting one, for every key, block and direction, with the encryption or decryption of the block on data_out; busy and the old output hold until then |
| Core.BlockRounds | blocks/aes/rtl/aes_core.v:205-243 | throughout ROUND and FINAL all 11 round keys are those of the accepted key, and the data register is the specified state of the current round |
| Core.DonePulse | blocks/aes/rtl/aes_core.v:192 | done lasts one cycle |
| Core.ClockedRoundTrip | blocks/aes/rtl/aes_core.v:178-248 | running the core to done in encryption and again in decryption on its output returns the block |
| Modes.Split | blocks/aes/rtl/aes_chain.v:10-15 | outputs and running IV of a stream of blocks compose at every cut |
| Modes.SplitIsInvisible | blocks/aes/rtl/aes_chain.v:10-15 | reloading the IV shown at a cut changes neither the outputs nor the final IV |
| Modes.EcbStream | blocks/aes/rtl/aes_chain.v:129-131 | in ECB, and for the unused mode value 3, output i is the encryption or decryption of block i, and the running IV is left alone |
| Modes.CbcEncryptChains | blocks/aes/rtl/aes_chain.v:117-119 | CBC ciphertext block i is the encryption of block i combined with ciphertext block i - 1, or with the IV |
| Modes.CbcFinalIv | blocks/aes/rtl/aes_chain.v:116-124 | after CBC over any message the running IV is the last ciphertext block, in both directions |
| Modes.CbcRoundTrip | blocks/aes/rtl/aes_chain.v:17-22 | CBC decryption of the CBC encryption of any message is the message |
| Modes.CbcRoundTripBack | blocks/aes/rtl/aes_chain.v:17-22 | CBC encryption of the CBC decryption of any blocks is those blocks |
| Modes.CbcDecryptIsLocal | blocks/aes/rtl/aes_chain.v:120-123 | CBC decryption output i depends on ciphertext blocks i and i - 1 only |
| Modes.CbcSuffixDecryptsAlone | blocks/aes/rtl/aes_chain.v:120-123 | any suffix decrypts alone, given the ciphertext block before it as IV |
| Modes.CtrStream | blocks/aes/rtl/aes_chain.v:125-128 | output i is input i combined with the encryption of the block whose number is (iv + i) mod 2^128, and the counter's number ends at (iv + n) mod 2^128 |
| Modes.CtrIgnoresDirection | blocks/aes/rtl/aes_chain.v:72-75 | the direction bit has no effect on a CTR message |
| Modes.CtrRoundTrip | blocks/aes/rtl/aes_chain.v:24-28 | a second CTR pass from the same IV, in any combination of directions, restores the message |
| Chain.AesChain.Tick | blocks/aes/rtl/aes_chain.v:93-141 | the in-place update of the chain and the core in it is the simultaneous step |
| Chain.ChainReset | blocks/aes/rtl/aes_chain.v:94-97 | one reset edge reaches the idle state with zero IV from any power-up values |
| Chain.ChainSimulates | blocks/aes/rtl/aes_chain.v:93-141 | every edge from every reachable state is a step of the chain's countdown, with the core and expander in lockstep below |
| Chain.AcceptThenFinish | blocks/aes/rtl/aes_chain.v:71-76 | what the core is given at acceptance and what is done with its result at completion make one request of the mode machine |
| Chain.SimultaneousLoad | blocks/aes/rtl/aes_chain.v:73-76 | the old IV at acceptance with a new one at completion gives the result of the new IV if and only if the mode is ECB or CBC decryption or the two IVs agree |
| Chain.ChainLockstep | blocks/aes/rtl/aes_chain.v:71 | in every state reached after a reset the chain idle means the core ready, so an accepted start is never dropped below |
| Chain.ChainTrace | blocks/aes/rtl/aes_chain.v:93-141 | for every stream of inputs, starts asked for at any time, the blocks emitted and the running IV are those of the mode machine over the accepted starts and loads; at most the one in flight is missing |
| Chain.CompleteRun | blocks/aes/rtl/aes_chain.v:93-141 | a run that ends idle has emitted all of them |
| Chain.CbcOnTheClock | blocks/aes/rtl/aes_chain.v:113-124 | a decrypting run over the blocks of an encrypting run, from the same loaded IV, emits the message, and both leave the last ciphertext block as IV |
| Chain.CtrOnTheClock | blocks/aes/rtl/aes_chain.v:113-128 | the same round trip for CTR, with every emitted block and the final counter as numbers modulo 2^128, and any directions |
| Chain.SplitOnTheClock | blocks/aes/rtl/aes_chain.v:10-15 | two runs, the second reloading the IV shown by the first, emit what one run emits |
| Chain.StartWhileBusy | blocks/aes/rtl/aes_chain.v:71 | a start while busy changes no register of the chain, the core or the expander |
| Chain.LoadsInFlight | blocks/aes/rtl/aes_chain.v:101-135 | with loads at any time, done comes on exactly the 22nd edge; the core used the IV from before the start and the completion the one loaded last before it, the completion's own IV winning over a load on its edge |
| Chain.StartWithLoad | blocks/aes/rtl/aes_chain.v:73-101 | a start and a load on one edge give, 22 edges later, the outcome of loading first if and only if ECB, CBC decryption or an unchanged IV |
| Chain.ChainBlock | blocks/aes/rtl/aes_chain.v:93-141 | without loads, done comes on exactly the 22nd edge with the mode's output and next IV; IV and output hold still until then |
| Registers.Aes.Tick | blocks/aes/rtl/aes.v:105-197 | the in-place update of the register file and the chain in it is the simultaneous step |
| Registers.Aes.NextRegs | blocks/aes/rtl/aes.v:120-197 | the assignments taken in the source's order, later ones winning, give the register step |
| Registers.DecodeMeaning | blocks/aes/rtl/aes.v:99-103 | the decoded strobes are what the register map says: START is bit 0 and LOAD_IV bit 4 of a write to 0x00 on an idle chain, the clear is bit 1 of a write to 0x04, the IV words are 0x40 to 0x4c, mode and direction are bits 3 to 1 |
| Registers.Handshake | blocks/aes/rtl/aes.v:154-182 | every write and read is answered with OKAY on the edge that takes it, nothing else is answered, and a read returns the register's value before the edge |
| Registers.CtrlWrite | blocks/aes/rtl/aes.v:102-117 | on an idle chain a block starts if and only if CTRL is written with bit 0 set, in every mode, latching mode, direction, DATA and KEY; the IV is loaded if and only if it is written with bit 4 set |
| Registers.CtrlWriteWhileBusy | blocks/aes/rtl/aes.v:102-103 | while a block is in flight no write starts one, loads the IV or changes what was latched |
| Registers.StatusWord | blocks/aes/rtl/aes.v:163 | STATUS reads BUSY in bit 0, DONE in bit 1 and zeros |
| Registers.FrontReset | blocks/aes/rtl/aes.v:121-192 | a reset edge clears the register file and idles the three machines below |
| Registers.ChainInsideBus | blocks/aes/rtl/aes.v:105-117 | the chain inside the peripheral runs exactly on the inputs the front end derives from the bus |
| Registers.Isolation | blocks/aes/rtl/aes.v:101-117 | whatever is written while busy, RESULT at completion is the mode function of key, data, direction, mode and running IV at the accepted START; BUSY and the old RESULT hold until then |
| Registers.DoneMeaning | blocks/aes/rtl/aes.v:130-131 | over every run DONE reads 1 if and only if some completion has not been cleared in its own cycle or since |
| Registers.DoneStep | blocks/aes/rtl/aes.v:128-131 | the interrupt is high exactly in the cycle after a completion |
| Registers.ReadBack | blocks/aes/rtl/aes.v:160-176 | the four words read from 0x20, 0x30 and 0x40 on reassemble to DATA, RESULT and IV |
| Registers.WriteThenRead | blocks/aes/rtl/aes.v:136-175 | a word written to 0x20-0x2c or 0x40-0x4c reads back as written, even when the write meets a completion, and leaves the other words alone |
| Registers.OtherWrites | blocks/aes/rtl/aes.v:136-153 | a write to any other offset, or none, leaves DATA, and KEY outside its own offsets, alone; IV then changes only at a completion |
| Registers.KeyWrite | blocks/aes/rtl/aes.v:139-143 | the key words are at 0x10 to 0x1c, most significant first, and nothing else changes them |
| Registers.RegisterMap | blocks/aes/rtl/aes.v:161-177 | each literal offset reads its word of DATA, RESULT or IV, every other offset (KEY included) reads 0, and no read depends on the key |
| Registers.CtrlReadBack | blocks/aes/rtl/aes.v:162-197 | CTRL shows direction and mode of the last accepted START; a START while busy does not change them |
| Registers.MirrorStep | blocks/aes/rtl/aes.v:133-151 | one edge keeps or re-establishes the equality of IV registers and running IV under the stated condition |
| Registers.IvMirror | blocks/aes/rtl/aes.v:133-151 | over every run, with no IV write since the last load or completion, the IV registers equal the running IV except in the done cycle |
| Registers.IvMirrorHolds | blocks/aes/rtl/aes.v:133-151 | after an accepted load outside a done cycle, or an undisturbed completion, and with no IV word written since, the IV registers equal the running IV in every cycle that is not a done cycle |
| Registers.LoadInDoneCycleExchanges | blocks/aes/rtl/aes.v:103-136 | a load in the done cycle swaps the two, so it mirrors if and only if they were equal |
| Registers.BusReachesChain | blocks/aes/rtl/aes.v:99-117 | without a reset and without START and LOAD_IV in one write, the accepted starts and loads reach the chain as they stand, and never while it is busy |
| Registers.BusTrace | blocks/aes/rtl/aes.v:99-184 | for every interleaving of accesses and waiting, the RESULT blocks at completions are the mode machine's outputs for the accepted events |
| Registers.CbcOnTheBus | blocks/aes/rtl/aes.v:99-184 | CBC encryption and then decryption of the results through the registers restores the message |
| Reference.GMulLoop | blocks/aes/dv/diff_sim_main.cpp:31-41 | the shift-and-reduce loop returns the byte product, a remainder of the polynomial product |
| Reference.AffineLoop | blocks/aes/dv/diff_sim_main.cpp:49-58 | the bit loop computes the affine map by rotations |
| Reference.FindInverse | blocks/aes/dv/diff_sim_main.cpp:44-47 | the search returns the inverse of every byte from 1 on |
| Reference.Tables.InitTables | blocks/aes/dv/diff_sim_main.cpp:43-64 | the computed tables equal the literal tables of the RTL, and rcon the powers of 2 |
| Reference.FillInvSbox | blocks/aes/dv/diff_sim_main.cpp:59 | scattering positions through the forward table yields the RTL's inverse table |
| Reference.KeyExpansion | blocks/aes/dv/diff_sim_main.cpp:75-90 | the 44 words are the recurrence of FIPS-197 section 5.2, for every key |
| Reference.SubBytes | blocks/aes/dv/diff_sim_main.cpp:98 | the in-place lookup loop is the RTL's SubBytes |
| Reference.InvSubBytes | blocks/aes/dv/diff_sim_main.cpp:99 | the in-place lookup loop is the RTL's InvSubBytes |
| Reference.ShiftRows | blocks/aes/dv/diff_sim_main.cpp:101-104 | the nested loop over rows and columns is the RTL's written-out permutation |
| Reference.InvShiftRows | blocks/aes/dv/diff_sim_main.cpp:105-108 | the same for the inverse permutation |
| Reference.MixColumns | blocks/aes/dv/diff_sim_main.cpp:110-118 | the in-place column loop is the RTL's MixColumns |
| Reference.InvMixColumns | blocks/aes/dv/diff_sim_main.cpp:119-127 | the in-place column loop is the RTL's InvMixColumns |
| Reference.AddRoundKey | blocks/aes/dv/diff_sim_main.cpp:129-135 | each byte of column c becomes itself exclusive-or its byte of word 4 * round + c, which for the expanded key is adding the round key |
| Reference.Encrypt | blocks/aes/dv/diff_sim_main.cpp:137-146 | for every key and block the loops compute `Cipher.Encrypt`, the value that `Core.BlockOperation` shows on data_out |
| Reference.Decrypt | blocks/aes/dv/diff_sim_main.cpp:148-157 | for every key and block the loops compute `Cipher.Decrypt`, the value that `Core.BlockOperation` shows on data_out |
| Driver.Write | tb/common/axi_lite_bfm.h:41-59 | the write loop completes within its timeout with an OKAY response, after one clock with the address and data |
| Driver.Read | tb/common/axi_lite_bfm.h:61-78 | the read loop completes within its timeout and returns the register's value |
| Driver.WriteBlock | blocks/aes/dv/sim_main.cpp:145-154 | four word writes from 0x10, 0x20 or 0x40 set exactly KEY, DATA or IV |
| Driver.LoadIv | blocks/aes/dv/sim_main.cpp:148-150 | four words to 0x40-0x4c and 0x10 to CTRL make the block of those words the running IV |
| Driver.FlightState | blocks/aes/rtl/aes.v:101-131 | after a START word in any of the six mode and direction combinations, and any transfers, the block is in flight for 21 edges and complete on the 22nd with the stated result |
| Driver.PollDone | blocks/aes/dv/diff_sim_main.cpp:212-215 | polling STATUS sees DONE before the timeout of 400 reads, whatever writes came before the first poll |
| Driver.RunBlock | blocks/aes/dv/sim_main.cpp:155-164 | writing 0x1, 0x3, 0x5, 0x7, 0x9 or 0xb to CTRL, polling and reading RESULT gives the block and leaves the running IV of ECB, CBC or CTR in that direction |
| Driver.KeyReadsZero | blocks/aes/dv/sim_main.cpp:96-99 | a KEY word reads 0 whatever was written |
| Driver.NoQueue | blocks/aes/dv/sim_main.cpp:101-128 | BUSY reads 1 after START, and DATA writes and a second START in flight do not change the result |
| Driver.CbcEncrypt | blocks/aes/dv/sim_main.cpp:145-165 | a message of any length through the registers comes out as the CBC recurrence of SP 800-38A section 6.2 |
| Driver.CbcDecrypt | blocks/aes/dv/chain_sim_main.cpp:106-112 | output i is the decryption of block i combined with block i - 1, or with the IV, for a message of any length through the registers |
| Driver.Ctr | blocks/aes/dv/chain_sim_main.cpp:114-127 | block i is combined with the encryption of the number (iv + i) mod 2^128, in either direction |
| Driver.MessagesRoundTrip | blocks/aes/dv/chain_sim_main.cpp:98-135 | encrypting and decrypting a message through the registers restores it in CBC and in CTR |
| DiffTest.RtlRun | blocks/aes/dv/diff_sim_main.cpp:208-226 | driving the peripheral through its registers never times out and returns the cipher of the arguments, for any key, block and direction |
| DiffTest.AppendixBOnTheBus | blocks/aes/dv/sim_main.cpp:74-83 | the printed example of FIPS-197 appendix B through the registers, both ways |
| DiffTest.SelfCheck | blocks/aes/dv/diff_sim_main.cpp:173-185 | the reference model gives the printed bytes of appendix B, and back |
| DiffTest.DifferentialTest | blocks/aes/dv/diff_sim_main.cpp:231-255 | for any list of cases, peripheral and reference agree, decryption restores the plaintext, and the failure count is 0 |
| DiffTest.Regression | blocks/aes/dv/diff_sim_main.cpp:170-263 | the same from table computation, self-check, power-up with arbitrary registers and reset |
| DiffTest.ResetSettles | blocks/aes/dv/diff_sim_main.cpp:202-205 | one reset edge makes the peripheral usable from any state |
| I2cSlave.FakeI2cSlave.Tick | tb/common/fake_i2c_slave.v:60-154 | the in-place update, condition or phase by phase, is the simultaneous step |
| I2cSlave.SafeStep | tb/common/fake_i2c_slave.v:18-24 | the bus invariant is kept by every edge, and the drive changes only on an edge where SCL is seen falling |
| I2cSlave.SafeRun | tb/common/fake_i2c_slave.v:18-24 | the bus invariant holds over every run |
| I2cSlave.NeverMakesCondition | tb/common/fake_i2c_slave.v:18-24 | after any history from a released idle state, a START or STOP on the line is a change made by the master, never by the slave |
| I2cBus.PulseRun | tb/common/fake_i2c_slave.v:54-58 | an SCL pulse of any hold times, with SDA doing anything while SCL is low, acts as one falling and one rising edge, and the drive is settled throughout |
| I2cBus.HeldRun | tb/common/fake_i2c_slave.v:57-72 | from any state of the bus invariant, SDA moving while SCL is high starts a transfer or ends one, whatever the phase, and holding it longer changes nothing |
| I2cBus.ReceiveBits | tb/common/fake_i2c_slave.v:77-112 | while a byte comes in, the shift register holds exactly the bits so far, most significant first |
| I2cBus.ReceivedUndisturbed | tb/common/fake_i2c_slave.v:77-112 | meanwhile the line shows the master's bit in every high phase |
| I2cBus.SentBit | tb/common/fake_i2c_slave.v:129-140 | the k-th pulse of a read shows bit k of the byte, as far as the master leaves the line alone |
| I2cBus.Addressed | tb/common/fake_i2c_slave.v:61-88 | after START and eight pulses the address match and the direction bit are decided by the bits on the line |
| I2cBus.WriteTransaction | tb/common/fake_i2c_slave.v:95-127 | a write to this address, with any hold times: SDA low through both acknowledge high phases, the received byte is the one sent, flags set, ends idle and released |
| I2cBus.ReadTransaction | tb/common/fake_i2c_slave.v:95-146 | a read from this address spells the offered byte on the line, most significant bit first, leaves the closing acknowledge to the master, keeps the received byte, ends idle and released |
| I2cBus.ForeignTransaction | tb/common/fake_i2c_slave.v:10-16 | another address is never driven against at any sample up to the next START, whatever the master does, and the received byte is unchanged |
| SpiSlave.FakeSpiSlave.Tick | tb/common/fake_spi_slave.v:31-62 | the in-place update is the simultaneous step |
| SpiSlave.Exchange | tb/common/fake_spi_slave.v:31-62 | from selection on, in all four modes and for any samples: counters, receive register, transmit register, MISO and xfer_done as functions of the SCLK edges so far |
| SpiSlave.FullDuplexReceive | tb/common/fake_spi_slave.v:31-62 | after 16 edges the received byte is MOSI at the eight sampling edges, and xfer_done is up from the 16th edge on and not before |
| SpiSlave.FullDuplexSend | tb/common/fake_spi_slave.v:31-62 | at the j-th sampling edge MISO shows bit j of the preloaded byte |
| SpiSlave.Deselected | tb/common/fake_spi_slave.v:41-61 | while deselected nothing is shifted and the result is kept |

## Left out

- Registers.Isolation: excludes a CTRL write with START and LOAD_IV together; what that write does is stated for the chain by `Chain.StartWithLoad`.
- Registers.BusTrace: excludes the same write; a reset ends the run it speaks about.
- DiffTest.DifferentialTest: takes any list of cases, so the random generator is not modelled; the key and plaintext arrays of the driver are blocks.
- KnownAnswer.AppendixB: the other published vectors that the drivers check (FIPS-197 appendix C.1 and the SP 800-38A examples) are not evaluated.
- I2cBus.WriteTransaction: the configured address and the offered byte are held constant for the run.
- Driver.CbcDecrypt, Driver.Ctr and Driver.MessagesRoundTrip: the repository drives these two modes at the ports of the chain; here they go through the registers of the peripheral.
- Values X and Z: registers that nothing has written hold arbitrary but fixed two-valued contents; the I2C line is the wired-and of the two sides with a pull-up.
- `wstrb`, `bready` and `rready` are inputs the register front end never reads, so they are not inputs of the model.
- Reads of a round key beyond index 10, where the source would give an unknown value: the model gives zero; `Core.Lockstep` shows that no such read happens.
- The 128-bit registers are held as four words of four bytes, byte 0 most significant, rather than as bit vectors; the packing into 32-bit bus words is proved to lose nothing.
- The remaining blocks of the repository (DMA, bus crossbar, timers, UART, JTAG, the I2C and SPI masters, the CPU) and their test benches are not part of this model.
- Timing, area, coverage, synthesis and side channels are not functional behaviour and are not modelled.
