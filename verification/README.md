# The Nock runtime, modelled and proved

A Dafny model of the core of the Urbit runtime (`pkg/urbit/noun`, `pkg/urbit/ur`, `pkg/urbit/vere/disk.c`) with
proofs of what its parts are for. `dafny verify dfyconfig.toml` checks all of it.

**Nock.** `Nouns` and `NockSpec` hold Nock 4K as a partial evaluator in which fuel bounds only the evaluation of
computed formulas. `NockComp` is the code the compiler produces; `NockEmit` is the emitter that pushes it, reversed,
onto an op list. `NockMachine` is the machine over instructions, with frames, trace, memo cache and call sites;
`NockSim` and `NockTheorems` prove that it computes exactly what the evaluator does, from any sound caches. `NockAsm`
lays code out in bytes, `NockAssembler` is the two-pass assembler, `NockBytes` proves the machine over bytes to go in
step with the one over instructions, and `NockBurn` is the interpreter loop.

**jam and cue.** `Bits`, `BitWriter` and `BitReader` are the bitstreams. `JamSpec` is serialization by recursion with
its round trip; `JamWalk`, `Serial` and `NounSerial` are the three encoders, `CueStack` and `CueRoot` the decoder.
`Dicts`, `HashCons` and `Coins` are the hash-consing arena they work on, `Room` says for which nouns it has room, and
`Meld` deduplicates a whole heap with it.

**The heap.** `BoxHeap` and `Allocator` are the boundary-tag allocator on roads of either direction. `RefHeap` is the
heap as its clients see it, with use counts; `EditInPlace` edits nouns in it, in place where nothing else sees them,
`Take` copies nouns out of an inner road, and `Compact` is the sliding compactor over the words of memory.

**Tables and disks.** `HashTable` is the hash trie and its eviction arm. `Snapshot` is the page snapshot with its
patch, under a model of crashes that lose or keep any unsynced page; `DiskLog` is the event log's committer.

The source's loops and updates in place are methods over arrays and fields, each tied to a specification function
or predicate; the laws are lemmas about those.

## Where the code and its promises differ

The model follows the code. Each of these but the last is proved, with the condition under which the promise holds.

- The runtime gives no product where the specification gives one in exactly three cases (`NockTheorems.RuntimeExact`,
  with witnesses in `NockPolicies.RuntimeDiffers`): a formula that is entered has a kick of axis 0 in code that is
  compiled, taken or not; a dynamic hint with a cell for a tag is met in a branch of a 6 of its own formula; a %bout
  clue is an atom, which trips an assertion after its formula has run. The first can be read off a formula, and so can a condition under which
  the second does not arise (`NockTheorems.CleanIsComplete`).
- Reading a stream in which an atom of up to 62 bits is given more stores an atom that fits a reference, and
  references are then no longer equal exactly when nouns are (`HashCons.CanonicalIff`, `CueRoot.CueZero`). Reading any
  other stream keeps them so: the condition is exact (`CueRoot.CueBytes`). Streams from the encoders meet it.
- Serializing a noun and reading it back fails when eleven nouns in it have one mug, or eleven of the bit positions of
  its atoms and cells: a bucket holds ten, and the original then grows its table until memory ends. If its bits can be
  addressed, it succeeds in all other cases (`CueRoot.ThereAndBack`); the conditions for reading a noun that is new
  and for deduplicating a heap are exact too (`CueRoot.CueBytes`, `Meld.MeldAll`).
- `_ca_willoc`, when it tries again after flushing the cell cache, passes on an alignment to which it has already
  added the header. After an odd number of such retries the block of an aligned allocation is two words short, unless
  it has slack or padding to spare (`Allocator.RetryShort` is such a call). It fits whenever there is no retry, which is
  so if and only if a listed box or the open end has room at the first alignment or the cache is empty, and there is at
  most one retry for every 1024 cached cells or part of them (`Allocator.Road.Malloc`).
- A crash between the removal of the two patch files can leave the memory file behind without a control file. A start
  leaves it there, and the next save that has anything to write stops the process; the start after that removes it
  (`Snapshot.MemoryLeft`, `Snapshot.Pool.Recover`, `Snapshot.Pool.Save`, `Snapshot.OneLife`). No segment is harmed.
- A watermark that retreats over a clean page and then grows over it again without a write leaves it out of the next
  snapshot (`Snapshot.RetreatLoses`). When a save writes the memory in use, and when it leaves clean pages on disk, is
  exact (`Snapshot.SavedExactly`, `Snapshot.SteadyAfterSave`).
- A batch whose commit took effect but was reported as failed is refused on every retry: nothing is lost or repeated,
  but from then on nothing more is stored or acknowledged, and the log gets there in no other way
  (`DiskLog.RetryRefused`, `DiskLog.Disk.Work`, `DiskLog.Disk.After`, `DiskLog.StuckRun`).
- The direct interpreter at the head of `nock.c` numbers 10 and 11 as hints and scry; the specification and the live
  compiler, which the model follows, have edit and hints.

## Model

| member | source | states |
|---|---|---|
| `Nouns.AtFromRoot` | doc/spec/nock/4.txt:16-20 | Looking an axis up from the root down, head or tail by `Cap` and the rest by `Mas`, is the specification's bottom-up `/`. |
| `Nouns.EditDownIsEdit` | pkg/urbit/noun/imprison.c:594-619 | The runtime's edit, recurring from the root, is the specification's `#`, failures included. |
| `Nouns.EditFromRoot` | doc/spec/nock/4.txt:22-25 | A bottom-up `#` reduction of a cell stays inside the branch its axis names. |
| `Nouns.AtAfterEdit` | doc/spec/nock/4.txt:22-25 | `#` succeeds exactly where `/` does, and `/` then finds the new part. |
| `NockSpec.EvalMonotone` | doc/spec/nock/4.txt:27-41 | More fuel never changes a product. |
| `NockSpec.EvalUnique` | doc/spec/nock/4.txt:27-41 | A formula has at most one product on a subject, whatever the fuel. |
| `NockSpec.ConditionalByReduction` | doc/spec/nock/4.txt:36-36 | The specification's indirect rule for 6, by way of `[2 3]` and two increments, is the plain branch on 0 and 1. |
| `NockPolicies.BranchCheckSound` | pkg/urbit/noun/nock.c:1118-1177 | A formula that the branch check rejects has no product on any subject but through a dynamic hint, in itself, with a cell for a tag. |
| `NockPolicies.BranchCheckComplete` | pkg/urbit/noun/nock.c:1118-1177 | A formula that the branch check accepts compiles if and only if nothing that is compiled in it kicks axis 0. |
| `NockPolicies.ProductCompiles` | pkg/urbit/noun/nock.c:1179-1436 | A formula with a product compiles if nothing compiled in it kicks axis 0, whatever tags it has outside its conditionals. |
| `NockPolicies.RuntimeExactly` | pkg/urbit/noun/nock.c:1179-1436 | The runtime refuses, of the products of the specification, exactly those that meet a compiled kick of axis 0 in a formula entered, a hint with a cell for a tag in a branch of a 6, or an atomic %bout clue. |
| `NockPolicies.LiveIsSpec` | pkg/urbit/noun/nock.c:1320-1357 | Whatever the runtime accepts has the specification's product. |
| `NockPolicies.CleanIsLive` | pkg/urbit/noun/nock.c:1320-1357 | On formulas with no cell tag in a branch of a 6 the runtime finds everything that has a product, as long as the formulas entered on the way are clean. |
| `NockPolicies.EnterCleanIsLive` | pkg/urbit/noun/nock.c:1610-1653 | The same for a computed formula that is clean: no cell tag in a branch of a 6, and no kick of axis 0 in what is compiled. |
| `NockPolicies.RuntimeDiffers` | pkg/urbit/noun/nock.c:1782-1816 | The three families where the runtime and the specification differ, a witness for each: a kick of axis 0 in a branch not taken, a cell tag under a 6, an atomic %bout clue. The same tag outside a 6, and the same kick in a branch that is rejected, do no harm. |
| `NockComp.CompilesIff` | pkg/urbit/noun/nock.c:1179-1436 | The compiler emits code exactly for the formulas of `Compiles`, in every mode. |
| `NockComp.ComputedKickIsMacro` | pkg/urbit/noun/nock.c:1372-1384 | A 9 outside the battery compiles to the code of `[7 core 2 [0 1] 0 axis]`. |
| `NockEmit.NComp` | pkg/urbit/noun/nock.c:1179-1436 | The emitter pushes exactly the code of the formula onto the reversed list and returns its length, or bails exactly when there is none. |
| `NockEmit.NBint` | pkg/urbit/noun/nock.c:984-1115 | The same for a hinted formula. |
| `NockEmit.CompIf` | pkg/urbit/noun/nock.c:1320-1357 | The same for a conditional, whose branches are sized in lists of their own and then welded. |
| `NockEmit.CompSame` | pkg/urbit/noun/nock.c:1269-1319 | The same for an equality, folded or against one literal. |
| `NockEmit.CompTiming` | pkg/urbit/noun/nock.c:1001-1020 | The same for the before/after protocol of a timed hint. |
| `NockEmit.BintMemo` | pkg/urbit/noun/nock.c:1093-1110 | The same for a memo hint, whose find instruction holds the length of the formula's code. |
| `NockEmit.OpList.Emit` | pkg/urbit/noun/nock.c:974-980 | One instruction is pushed. |
| `NockEmit.OpList.Apen` | pkg/urbit/noun/nock.c:966-972 | A list is welded in front. |
| `NockMachine.RunPlus` | pkg/urbit/noun/nock.c:1846-2589 | Running `a + b` steps is running `a` and then `b`. |
| `NockMachine.RunStays` | pkg/urbit/noun/nock.c:1846-2589 | A halted or bailed machine stays so. |
| `NockSim.Sim` | pkg/urbit/noun/nock.c:1851-2589 | The code of a formula on `s::rest` ends with `p::rest` or `p::s::rest` when evaluation gives `p`, bails when it gives nothing, and runs on while fuel is lacking; by forward simulation over all instructions, frames and tail calls. |
| `NockSim.LockSound` | pkg/urbit/noun/jets.c:1474-1488 | A call site keyed by battery alone gives the formula at its axis, because only axes in the head get one; storing what it found keeps every cache sound. |
| `NockSim.HeadAxis` | pkg/urbit/noun/jets.c:1474-1488 | An axis in the head does not see the tail. |
| `NockSim.SiteIndexUnique` | pkg/urbit/noun/nock.c:2227-2294 | Distinct call sites of a program have distinct indices. |
| `NockSim.Jump` | pkg/urbit/noun/nock.c:2064-2095 | A call, with a frame or in tail position, up to where its product is left. |
| `NockSim.SimMemo` | pkg/urbit/noun/nock.c:2398-2442 | A memo hit leaves the product of its subject and formula; a miss computes it and stores it under both. |
| `NockSim.SimPushed` | pkg/urbit/noun/nock.c:1061-1069 | A stack-trace hint: the trace grows for the formula, which is never in tail position, and is restored after it. |
| `NockSim.SimTimed` | pkg/urbit/noun/nock.c:1037-1057 | A timed hint, static or dynamic: its formula's product, with the token of its first half gone. |
| `NockSim.IfTaken` | pkg/urbit/noun/nock.c:2191-2225 | After the branch the test chose, control is behind the whole conditional. |
| `NockTheorems.CompilerCorrect` | pkg/urbit/noun/nock.c:1846-2589 | From any sound caches, with any evictions: the machine halts with `p` if and only if the evaluator, accepting what the compiler accepts, yields `p`. |
| `NockTheorems.RuntimeExact` | pkg/urbit/noun/nock.c:1846-2589 | The machine halts with `p` if and only if the specification yields `p` without one of exactly three things: a compiled kick of axis 0 in a formula entered, a hint with a cell for a tag met in a branch of a 6, an atomic %bout clue. |
| `NockTheorems.RunsKeepCaches` | pkg/urbit/noun/nock.c:2398-2442 | A halted run has restored the trace stack and left sound caches, so products stay right over any sequence of runs. |
| `NockTheorems.NeverWrong` | pkg/urbit/noun/nock.c:1846-2589 | A product of the machine is the specification's. |
| `NockTheorems.CleanIsComplete` | pkg/urbit/noun/nock.c:1846-2589 | When every formula entered is clean and no %bout clue is an atom, every product of the specification is found. |
| `NockTheorems.CachesAreTransparent` | pkg/urbit/noun/nock.c:2227-2294 | Memoization, eviction and call-site state never change what is computed. |
| `NockAsm.Layout` | pkg/urbit/noun/nock.c:762-910 | The buffer from the offset of instruction `i` on is the buffer of the rest of the code, and the tables of the rest begin the tables of the whole. |
| `NockAsm.Measured` | pkg/urbit/noun/nock.c:545-669 | The measured size is the size written. |
| `NockAsm.SitesAreCalls` | pkg/urbit/noun/nock.c:762-910 | Call sites are numbered by the machine as the table counts them. |
| `NockAsm.SkipRead` | pkg/urbit/noun/nock.c:2191-2225 | A skip written at any of its three widths reads back as that distance. |
| `NockAsm.IndexRead` | pkg/urbit/noun/nock.c:744-760 | A literal index reads back in its byte or short form. |
| `NockAsm.TableAt` | pkg/urbit/noun/nock.c:762-910 | The literal, memo, call and register tables hold the operand at the index the instruction was given. |
| `NockAsm.FetchBack` | pkg/urbit/noun/nock.c:1514-1534 | Reading at the offset of instruction `i` gives that instruction's action, its skip in bytes, and the offset of the next. |
| `NockAsm.SpanPlus` | pkg/urbit/noun/nock.c:545-669 | The bytes of `i + n` instructions are those of `i` and of the next `n`. |
| `NockAssembler.Melt` | pkg/urbit/noun/nock.c:545-669 | The first pass finds the byte size of every instruction, every skip in bytes and the table sizes; it refuses exactly the programs past 2^16 entries. |
| `NockAssembler.Total` | pkg/urbit/noun/nock.c:545-669 | A skip counted in instructions is summed up in bytes. |
| `NockAssembler.AsmIndex` | pkg/urbit/noun/nock.c:744-760 | An index is written backwards in its narrowest form. |
| `NockAssembler.AsmSkip` | pkg/urbit/noun/nock.c:762-910 | A skip is written backwards in the narrowest of three forms. |
| `NockAssembler.AsmOne` | pkg/urbit/noun/nock.c:762-910 | One instruction is written backwards, and its operand put in its table. |
| `NockAssembler.Asm` | pkg/urbit/noun/nock.c:762-910 | The second pass fills the buffer from its end: the bytes and tables of the code in forward order, and the halt. |
| `NockAssembler.Bite` | pkg/urbit/noun/nock.c:1600-1608 | Compiling and assembling gives exactly the program of the formula, or nothing when there is none or it is past the limits. |
| `NockBytes.CompSound` | pkg/urbit/noun/nock.c:1179-1436 | Every skip the compiler emits lands on an instruction of the same program or just behind it. |
| `NockBytes.Lockstep` | pkg/urbit/noun/nock.c:1846-2589 | The machine over bytes and the machine over instructions go in step. |
| `NockBytes.HaltAtEnd` | pkg/urbit/noun/nock.c:762-910 | Behind the last instruction is the halt. |
| `NockBytes.BytecodeCorrect` | pkg/urbit/noun/nock.c:1846-2589 | Compile, assemble and run the bytes: a product they give is the evaluator's and the specification's, and the evaluator's products are given unless a program on the way is past the assembler's limits. |
| `NockBurn.Find` | pkg/urbit/noun/nock.c:1610-1653 | A formula's program is found or compiled, or refused. |
| `NockBurn.Burn` | pkg/urbit/noun/nock.c:1846-2589 | The loop, which keeps the loaded program and loads another when control moves, is the byte machine. |
| `BitWriter.PutByte` | pkg/urbit/ur/bitstream.c:788-819 | Merging bits into the byte under the cursor appends exactly those bits. |
| `BitWriter.Bsw.Bit` | pkg/urbit/ur/bitstream.c:776-785 | One bit is appended. |
| `BitWriter.Bsw.Grow` | pkg/urbit/ur/bitstream.c:717-734 | A larger buffer holds the same bits, with zeros past the cursor. |
| `BitWriter.Bsw.Bsw8` | pkg/urbit/ur/bitstream.c:822-831 | The low bits of a byte are appended. |
| `BitWriter.Bsw.Bsw64Unsafe` | pkg/urbit/ur/bitstream.c:915-1020 | The low bits of a word are appended, at any cursor. |
| `BitWriter.Bsw.Bsw64` | pkg/urbit/ur/bitstream.c:1023-1035 | The same, making room first. |
| `BitWriter.Bsw.Shifted` | pkg/urbit/ur/bitstream.c:1054-1095 | Off a byte boundary every byte is split over two, and exactly the given bits are appended. |
| `BitWriter.Bsw.BytesUnsafe` | pkg/urbit/ur/bitstream.c:1038-1100 | The first bits of a byte array are appended. |
| `BitWriter.Bsw.BexUnsafe` | pkg/urbit/ur/bitstream.c:1115-1136 | A binary exponent is appended: zeros and a one. |
| `BitWriter.Bsw.Mat64` | pkg/urbit/ur/bitstream.c:1167-1185 | A word is appended in its self-delimiting form. |
| `BitWriter.Bsw.Back64` | pkg/urbit/ur/bitstream.c:1226-1238 | A back-reference is appended. |
| `BitWriter.Bsw.Atom64` | pkg/urbit/ur/bitstream.c:1248-1260 | A small atom is appended. |
| `BitWriter.Bsw.AtomBytes` | pkg/urbit/ur/bitstream.c:1270-1279 | A large atom is appended. |
| `BitWriter.Bsw.Cell` | pkg/urbit/ur/bitstream.c:1282-1291 | A cell tag is appended. |
| `BitWriter.Bsw.Done` | pkg/urbit/ur/bitstream.c:744-754 | The finished bytes are the bits written, padded with zeros to a byte. |
| `BitReader.Bsr.ReadTag` | pkg/urbit/ur/bitstream.c:543-597 | The tag read is the one the bits spell, the cursor is behind it, and it is refused exactly when the bits run out within it. |
| `BitReader.Bsr.ReadLog` | pkg/urbit/ur/bitstream.c:609-656 | The number of zeros before the next one is read, or refused exactly when there is none or it exceeds 255. |
| `BitReader.Bsr.Scan` | pkg/urbit/ur/bitstream.c:617-632 | Zero bytes are passed over, and the place of the first one found. |
| `BitReader.Bsr.ReadRubLen` | pkg/urbit/ur/bitstream.c:659-687 | The run length the bits spell is read, with its three ways to fail. |
| `BitReader.Bsr.Read64` | pkg/urbit/ur/bitstream.c:230-372 | Exactly the next bits are returned and passed, at any cursor. |
| `BitReader.Bsr.ReadBytes` | pkg/urbit/ur/bitstream.c:375-481 | Exactly the next bits are returned in a byte array, zeros above them, and passed. |
| `BitReader.Bsr.Skip` | pkg/urbit/ur/bitstream.c:484-530 | The skipper ends where the reader does. |
| `JamSpec.RubOfMat` | pkg/urbit/ur/bitstream.c:659-687 | A self-delimiting payload reads back its length. |
| `JamSpec.AtomNext` | pkg/urbit/ur/serial.c:175-259 | The bits of an atom read as that atom. |
| `JamSpec.PayloadNext` | pkg/urbit/ur/serial.c:225-250 | A payload after an atom's tag reads as its value, with the length declared, zeros on top or not. |
| `JamSpec.PaddedAtom` | pkg/urbit/ur/serial.c:225-250 | An atom of up to 62 bits that is given more reads as that atom, and the stream is not tight. |
| `JamSpec.BackNext` | pkg/urbit/ur/serial.c:175-259 | The bits of a back-reference read as that position. |
| `JamSpec.CueOfJam` | pkg/urbit/ur/serial.c:174-324 | Reading what was written at a position gives the noun and ends behind it; every back-reference points at a value already completed, and the positions completed are those of its atoms and cells. |
| `JamSpec.JamRoundTrip` | pkg/urbit/ur/serial.c:174-324 | Reading the serialization of a noun, with any padding behind it, gives that noun. |
| `JamSpec.JamInjective` | pkg/urbit/ur/serial.c:89-97 | Different nouns have different serializations. |
| `JamWalk.PopTop` | pkg/urbit/ur/hashcons.c:964-1006 | Writing the top of the stack and popping it leaves the whole output the same. |
| `JamWalk.PushCell` | pkg/urbit/ur/hashcons.c:964-1006 | Writing a cell tag and pushing tail and head leaves the whole output the same. |
| `Dicts.Dict.Get` | pkg/urbit/ur/hashcons.c:184-200 | The value last stored for a reference is found, if any. |
| `Dicts.Dict.Put` | pkg/urbit/ur/hashcons.c:203-229 | A value is stored; it fails only when ten other references have the same mug. |
| `Dicts.Rehash` | pkg/urbit/ur/hashcons.c:137-181 | Every entry is copied into more buckets, or refused when one of them would hold more than ten. |
| `Dicts.Grow` | pkg/urbit/ur/hashcons.c:137-181 | Growth ends, with every entry kept. |
| `Dicts.NoOverflow` | pkg/urbit/ur/hashcons.c:137-181 | With a bucket for every mug no bucket overflows. |
| `Dicts.FullIsCrowded` | pkg/urbit/ur/hashcons.c:203-229 | A full bucket in such a table holds ten entries of one mug. |
| `Dicts.Bounded` | pkg/urbit/ur/hashcons.c:203-235 | No more than ten references of one mug are ever in a dictionary. |
| `Dicts.Dict.Wipe` | pkg/urbit/ur/hashcons.c:232-238 | Every entry is forgotten. |
| `HashCons.RefsUnique` | pkg/urbit/ur/hashcons.c:616-754 | In a canonical arena, equal nouns have equal references. |
| `HashCons.CanonicalIff` | pkg/urbit/ur/hashcons.c:616-754 | References are equal exactly when nouns are if and only if no stored atom would have fit a reference. |
| `HashCons.DenoteStays` | pkg/urbit/ur/hashcons.c:495-520 | References keep their nouns as the arena grows. |
| `HashCons.BytesUnique` | pkg/urbit/ur/hashcons.c:617-659 | Trimmed byte strings are determined by their value. |
| `HashCons.Root.CoinBytesUnsafe` | pkg/urbit/ur/hashcons.c:617-659 | An atom is found or stored once, across dictionary growth; one that is there is found and nothing changes; it fails only with ten other atoms of its mug or all indices used. |
| `HashCons.Root.Cons` | pkg/urbit/ur/hashcons.c:715-754 | A cell of two references is found or stored once, behind its parts; one that is there is found and nothing changes. |
| `HashCons.KnowsCell` | pkg/urbit/ur/hashcons.c:715-754 | In a canonical arena a cell that some reference stands for is stored as the references of its parts. |
| `HashCons.MugIs` | pkg/urbit/ur/hashcons.c:434-460 | The mug of a reference, computed or looked up, is that of its noun. |
| `HashCons.CrowdedNouns` | pkg/urbit/ur/hashcons.c:203-235 | A dictionary of references that cannot take one more has, with it, eleven nouns of one mug. |
| `HashCons.EnteredNouns` | pkg/urbit/ur/hashcons.c:203-235 | Of the nouns whose references are all in a dictionary no eleven have one mug. |
| `Room.RefusedOver` | pkg/urbit/ur/hashcons.c:617-754 | An arena that has stored only nouns of a set refuses one of them only if the set is too much for any arena: more large atoms or cells than indices, or eleven of either with one mug. |
| `Room.HeldNotOver` | pkg/urbit/ur/hashcons.c:617-754 | What an arena holds is never too much. |
| `Room.HadRoom` | pkg/urbit/ur/hashcons.c:617-754 | An arena that has come to know a noun had room for it: what it held and all of the noun is not too much. |
| `Room.HadNoRoom` | pkg/urbit/ur/hashcons.c:617-754 | An arena that refused a part of a noun, having stored other parts of it only, had no room for it. |
| `Coins.CoinBytes` | pkg/urbit/ur/hashcons.c:662-687 | Zero bytes on top are stripped; up to 62 bits are held in the reference, more are stored; the arena is canonical afterwards if and only if it was before; nothing else is stored, and it fails only for an atom not stored whose bucket or indices are full. |
| `Coins.Coin64` | pkg/urbit/ur/hashcons.c:690-712 | A 64-bit number is held in the reference or stored in eight bytes; the arena is canonical if and only if it was; nothing else is stored, and it fails as the other does. |
| `Serial.MetBytesOk` | pkg/urbit/ur/hashcons.c:545-576 | The bit length found from the last byte is that of the atom. |
| `Serial.JamAtom` | pkg/urbit/ur/serial.c:33-66 | An atom met before is written as a reference exactly when it is longer than its earlier position; otherwise it is written out. It fails only if eleven of the nouns met in this walk have one mug. |
| `Serial.JamCellTag` | pkg/urbit/ur/serial.c:69-86 | A cell met before is written as a reference and not entered; a new one is recorded and its tag written. It fails only if eleven of the nouns met in this walk have one mug. |
| `Serial.JamRef` | pkg/urbit/ur/serial.c:142-151 | `ur_jam` writes exactly the specified bits of the noun. Unless the bits exceed a 64-bit cursor it succeeds if and only if no eleven nouns within the one written have one mug. |
| `CueStack.OpenCell` | pkg/urbit/ur/serial.c:175-259 | A cell tag opens a frame. |
| `CueStack.HeadRead` | pkg/urbit/ur/serial.c:261-324 | A head that was read is stashed in its frame. |
| `CueStack.TailRead` | pkg/urbit/ur/serial.c:261-324 | A tail that was read completes its cell. |
| `CueStack.FinishHolds` | pkg/urbit/ur/serial.c:261-324 | What is read so far is within the noun that will be read, and what will be tight is tight. |
| `CueRoot.TakeAtom` | pkg/urbit/ur/serial.c:174-268 | The payload of an atom becomes a reference for its value; the arena stays canonical unless it has up to 62 bits and was given more, and stays as it is if the atom is known. |
| `CueRoot.CueNext` | pkg/urbit/ur/serial.c:175-259 | Tokens are read until a noun is complete, as the recursive reader does. |
| `CueRoot.CloseCell` | pkg/urbit/ur/serial.c:261-324 | The tail of a frame was read: its cell is stored, or found, and completes the position it began at. |
| `CueRoot.ReadAll` | pkg/urbit/ur/serial.c:285-320 | The loop over the stack of open cells reads what the recursive reader reads, with the same consequences for the arena. |
| `CueRoot.CueBytes` | pkg/urbit/ur/serial.c:271-324 | `ur_cue` accepts exactly what the recursive reader accepts, with its noun. The arena stays canonical if and only if no atom of up to 62 bits was given more; only nouns within the one read are stored; a noun known already, from a tight stream, changes nothing. Into a canonical arena, a tight stream of a noun is read if and only if the arena has room for all of it and no eleven of its positions have one mug. |
| `CueRoot.CueZero` | pkg/urbit/ur/serial.c:225-250 | Zero, given 63 bits, is stored: reading it into an empty arena succeeds and leaves two references for zero. |
| `CueRoot.ThereAndBack` | pkg/urbit/ur/serial.c:378-405 | Serializing a reference and reading the bytes back gives the same reference in the same arena. It succeeds if and only if the bits can be addressed, no eleven nouns within the noun have one mug, and no eleven positions of its atoms and cells have one. |
| `NounSerial.Fib.Grow` | pkg/urbit/noun/serial.c:20-47 | Growth keeps the bits; it succeeds if and only if no more bits are wanted than the largest fibonacci number of 32 bits. |
| `NounSerial.TurnBound` | pkg/urbit/noun/serial.c:20-47 | The next capacity has more than 32 bits exactly past 2971215073. |
| `NounSerial.Fib.Chop` | pkg/urbit/noun/serial.c:49-62 | The low bits of a number are appended bit by bit. |
| `NounSerial.Fib.PutMat` | pkg/urbit/noun/serial.c:64-80 | An atom is appended in its self-delimiting form. |
| `NounSerial.Fib.AtomCb` | pkg/urbit/noun/serial.c:82-114 | An atom, or a shorter reference to it. |
| `NounSerial.Fib.CellCb` | pkg/urbit/noun/serial.c:116-138 | A cell tag, or a reference to the cell. |
| `NounSerial.JamFib` | pkg/urbit/noun/serial.c:140-171 | The same bits as `ur_jam` for the same noun, if and only if there are no more than 2971215073. |
| `NounSerial.JamXeno` | pkg/urbit/noun/serial.c:266-286 | The same bits again, through the bitstream writer. |
| `Meld.AtomToRef` | pkg/urbit/noun/urth.c:11-47 | An indirect atom of any length becomes a reference for its value; nothing else is stored. |
| `Meld.FromNext` | pkg/urbit/noun/urth.c:104-156 | A noun is moved as far as it can be without its parts; cells go on the stack; only what is in the noun is stored. |
| `Meld.FromLoom` | pkg/urbit/noun/urth.c:158-197 | The reference for a noun of the loom stands for it, and so does every reference left in a box; only what is in the noun is stored, and it fails only for a part of it that is refused. |
| `Meld.WordsOfNumber` | pkg/urbit/noun/imprison.c:329-360 | The words of an atom's bytes make its value, with none too many. |
| `Meld.Builder.IBytes` | pkg/urbit/noun/imprison.c:329-360 | An atom is allocated from its bytes, as a direct one if it fits. |
| `Meld.RefToNoun` | pkg/urbit/noun/urth.c:241-282 | The loom word for a reference denotes what it stands for; a direct atom past 31 bits is allocated once. |
| `Meld.AtomsToLoom` | pkg/urbit/noun/urth.c:297-309 | Every stored atom is allocated once. |
| `Meld.CellsToLoom` | pkg/urbit/noun/urth.c:311-327 | Every cell is allocated once, its parts having been allocated before it; it succeeds if and only if no eleven of the direct atoms past 31 bits have one mug. |
| `Meld.AllParted` | pkg/urbit/noun/urth.c:311-327 | The atoms of 32 to 62 bits in the roots are exactly those that are parts of stored cells. |
| `Meld.AllShared` | pkg/urbit/noun/urth.c:284-354 | On the rebuilt loom two words are equal exactly when their nouns are. |
| `Meld.MeldAll` | pkg/urbit/noun/urth.c:356-427 | The roots denote what they did, and every noun is on the loom once. It succeeds if and only if what is in the roots has no more large atoms or cells than there are indices, and no eleven large atoms, cells, or atoms of 32 to 62 bits have one mug. |
| `HashTable.RankSet` | pkg/urbit/noun/hashtable.c:48-54 | Setting a bit moves the children past it up by one. |
| `HashTable.BuckGit` | pkg/urbit/noun/hashtable.c:556-570 | A bucket is searched for a key. |
| `HashTable.NodeGit` | pkg/urbit/noun/hashtable.c:572-610 | A node is searched for a key by popcount. |
| `HashTable.Root.Git` | pkg/urbit/noun/hashtable.c:612-644 | The latest value stored for a key is found, if it is still there, and its line warmed. |
| `HashTable.BuckAdd` | pkg/urbit/noun/hashtable.c:119-152 | A bucket gets a line, or a new value in the line of an equal key. |
| `HashTable.NodeAdd` | pkg/urbit/noun/hashtable.c:80-117 | A node gets a line, in the child for its fragment or as a new child. |
| `HashTable.Two` | pkg/urbit/noun/hashtable.c:165-209 | Two lines get nodes down to where their mugs differ, or a bucket. |
| `HashTable.SlotPut` | pkg/urbit/noun/hashtable.c:211-240 | The trie below a slot represents the map with the line stored. |
| `HashTable.Root.Put` | pkg/urbit/noun/hashtable.c:242-267 | The table represents the map with the key's new value, and its count is the number of keys; a bounded table then keeps at most its bound, the other values untouched. |
| `HashTable.NodeSet` | pkg/urbit/noun/hashtable.c:80-118 | Replacing one child changes just the lines below it. |
| `HashTable.TrimBuck` | pkg/urbit/noun/hashtable.c:362-399 | A line of a bucket is dropped or warm lines are cooled. |
| `HashTable.TrimEntry` | pkg/urbit/noun/hashtable.c:345-360 | A lone line is cooled, or dropped if it is cold. |
| `HashTable.TrimNode` | pkg/urbit/noun/hashtable.c:289-343 | The child under the arm is trimmed; an empty one is dropped, and a node of one line becomes it. |
| `HashTable.SoleEntry` | pkg/urbit/noun/hashtable.c:292-345 | A node with a single line below it is that line. |
| `HashTable.TrimSlot` | pkg/urbit/noun/hashtable.c:424-436 | Trimming below a slot drops one line, or cools some, or moves the arm. |
| `HashTable.Root.TrimRoot` | pkg/urbit/noun/hashtable.c:438-453 | One step of the arm drops a line, or cools one, or comes nearer to every key. |
| `HashTable.Root.TrimTo` | pkg/urbit/noun/hashtable.c:455-467 | Eviction ends on every table, with exactly the bound's number of lines or all of them, their values untouched. |
| `HashTable.Nearer` | pkg/urbit/noun/hashtable.c:414-422 | Skipping mugs that no key has brings the arm nearer to every key. |
| `HashTable.ArmMoved` | pkg/urbit/noun/hashtable.c:414-422 | The arm passes only mugs that no key has. |
| `Snapshot.ApplyGives` | pkg/urbit/noun/events.c:653-710 | Applying a patch to segments whose other pages are in place gives the new segments, whatever else was in them. |
| `Snapshot.Composed` | pkg/urbit/noun/events.c:539-603 | The patch of the dirty pages describes the memory in use, and its other pages are in place. |
| `Snapshot.Pool.SavePage` | pkg/urbit/noun/events.c:504-537 | A dirty page gets a line, is written, and is clean. |
| `Snapshot.Pool.Compose` | pkg/urbit/noun/events.c:331-603 | The patch files hold exactly the dirty pages within the watermarks, or there is no patch when there are none. It stops the process, an empty control file made, if and only if there are some and a memory file is in the way. |
| `Snapshot.Pool.Verify` | pkg/urbit/noun/events.c:368-411 | A patch is accepted exactly when its version and every page's mug match. |
| `Snapshot.Pool.Apply` | pkg/urbit/noun/events.c:653-710 | The segments become the patched ones, and a crash within leaves them repairable. |
| `Snapshot.Pool.Settle` | pkg/urbit/noun/events.c:898-941 | After the segments are synced the patch is removed, and a crash within changes nothing. |
| `Snapshot.Pool.Save` | pkg/urbit/noun/events.c:898-941 | If any page in use is dirty the segments become the memory in use, else nothing changes; at every step on the way a crash leaves the old segments or the new ones. It stops the process if and only if there are dirty pages and a memory file is in the way; then the segments are in place, and an empty control file is there for the next start. |
| `Snapshot.Pool.Recover` | pkg/urbit/noun/events.c:424-470 | A patch left by a crash is applied if it verifies, and removed; a memory file is removed if and only if there is a control file. |
| `Snapshot.Pool.Blit` | pkg/urbit/noun/events.c:712-745 | Memory inside the segments is what they hold, and clean. |
| `Snapshot.Pool.Live` | pkg/urbit/noun/events.c:943-1016 | A start, which may itself crash at any step, restores the segments and copies them to memory; without a control file the files stay as they are. |
| `Snapshot.MemoryLeft` | pkg/urbit/noun/events.c:357-366 | A crash while a patch is being removed can leave its memory file without a control file. |
| `Snapshot.StoppedSafe` | pkg/urbit/noun/events.c:331-350 | After a save that was stopped, whatever a crash does, the segments are in place and there is an empty control file. |
| `Snapshot.OneLife` | pkg/urbit/noun/events.c:424-603 | A start, a write and a save on any files that can be restored: the save is stopped if and only if there was a memory file without a control file, and then the next start removes it and the next save goes through. |
| `Snapshot.RestorableRecovers` | pkg/urbit/noun/events.c:424-470 | Files from which a pair of segments can be restored are restored to it. |
| `Snapshot.CrashAtomic` | pkg/urbit/noun/events.c:897-1016 | A crash at any moment of a save, and a start: exactly the old or exactly the new segments. |
| `Snapshot.SteadyReady` | pkg/urbit/noun/events.c:898-941 | While the watermarks do not retreat, every clean page within them has an equal copy on disk. |
| `Snapshot.SteadyAfterSave` | pkg/urbit/noun/events.c:898-941 | After a save every clean page is on disk if and only if no clean page was outside the watermarks; so it is when they do not retreat. |
| `Snapshot.SavedExactly` | pkg/urbit/noun/events.c:539-710 | The patch a save composes makes of the segments the memory in use if and only if every clean page of it is in its segment already, or is a hole past the end of the segment and before a dirty page. |
| `Snapshot.RetreatLoses` | pkg/urbit/noun/events.c:898-941 | A watermark that retreats over a page and regrows without a write saves segments without that page. |
| `DiskLog.RecordRoundTrip` | pkg/urbit/vere/disk.c:152-180 | A stored record reads back as the event. |
| `DiskLog.JamBytes` | pkg/urbit/vere/disk.c:152-180 | The bytes stored are the bits of the noun, padded. |
| `DiskLog.Landed` | pkg/urbit/vere/db/lmdb.c:337-400 | A batch that overwrites nothing extends the stored log without a gap. |
| `DiskLog.RetryRefused` | pkg/urbit/vere/disk.c:46-103 | A batch is refused on retry if and only if an earlier attempt took effect. |
| `DiskLog.StuckRun` | pkg/urbit/vere/disk.c:46-103 | One event, a commit that takes effect and is reported as failed: the event is stored and the log is stuck. |
| `DiskLog.Disk.Plan` | pkg/urbit/vere/disk.c:238-256 | The event is queued behind the others, and a write is started unless one is in flight. |
| `DiskLog.Disk.BootPlan` | pkg/urbit/vere/disk.c:258-281 | A boot event is queued without starting a write. |
| `DiskLog.Disk.BootSave` | pkg/urbit/vere/disk.c:283-290 | A write of the boot sequence is started. |
| `DiskLog.Disk.Batch` | pkg/urbit/vere/disk.c:182-209 | The batch is the records of the first events of the queue. |
| `DiskLog.Disk.Commit` | pkg/urbit/vere/disk.c:211-236 | A write of the whole queue is started unless one is in flight or there is none. |
| `DiskLog.Disk.Work` | pkg/urbit/vere/disk.c:122-133 | The transaction stores the whole batch or nothing; the stored log stays a gapless prefix of what was planned. The log gets stuck exactly when a batch lands and is reported as failed, and once stuck nothing more is stored. |
| `DiskLog.Disk.Transact` | pkg/urbit/vere/db/lmdb.c:337-400 | All records of a batch are stored, or none because one would overwrite another, which is so whenever something is stored and not acknowledged. |
| `DiskLog.Disk.After` | pkg/urbit/vere/disk.c:105-120 | A finished write is acknowledged or kept for retry; one that was cancelled, before it began, leaves the queue. The log is stuck afterwards if and only if it was before, and if it was nothing is acknowledged. |
| `DiskLog.Disk.CommitDone` | pkg/urbit/vere/disk.c:46-103 | Acknowledged events leave the queue, which is always the events done + 1 to sent; a failed batch is still at its front. |
| `RefHeap.Road.Gain` | pkg/urbit/noun/allocate.c:1030-1054 | A reference is gained and counted; it fails exactly at the highest count. |
| `RefHeap.Road.Lose` | pkg/urbit/noun/allocate.c:1405-1443 | A reference is given up; slots no longer referred to are freed with their parts, and every other noun is as it was. |
| `RefHeap.Dropped` | pkg/urbit/noun/allocate.c:1408-1445 | What a freed slot referred to is then held instead. |
| `RefHeap.Rebodied` | pkg/urbit/noun/allocate.c:1364-1480 | Changing a slot that nothing else refers to changes only its noun. |
| `EditInPlace.EditNew` | pkg/urbit/noun/imprison.c:594-619 | A new noun is the old one with the part replaced, and its counts are right. It fails if and only if a reference that has to be gained on the way would exceed the highest use count. |
| `EditInPlace.EditOrMutate` | pkg/urbit/noun/imprison.c:694-703 | Cells that are ours alone are changed in place, and from the first that is not a new noun is made. It fails if and only if a reference that has to be gained on the way would exceed the highest use count. |
| `EditInPlace.Mutate` | pkg/urbit/noun/imprison.c:645-670 | A cell that is ours alone holds the edited part. It fails if and only if a reference that has to be gained on the way would exceed the highest use count. |
| `EditInPlace.PutPart` | pkg/urbit/noun/imprison.c:645-670 | A part is exchanged, and what was there is held. |
| `EditInPlace.EditNoun` | pkg/urbit/noun/imprison.c:720-737 | The result is the specification's edit, or an exit when the axis is not there; every noun held by others is as it was. It fails for want of counts if and only if some slot that the edit has to refer to again, by its first cell that is shared and those below, would be used more often than can be counted. |
| `Take.Next` | pkg/urbit/noun/allocate.c:1133-1187 | A noun is taken as far as it can be without its parts; what is out already is counted once more, which fails only at the highest count of that very slot. |
| `Take.TakeNoun` | pkg/urbit/noun/allocate.c:1245-1284 | The result denotes what the junior noun did; each junior object it reaches, and no other, is copied, once; and every use count is the number of references. It fails only where something met in the noun is out already, in a slot with the highest use count. |
| `Take.AllOut` | pkg/urbit/noun/allocate.c:1136-1187 | What has been copied has all it reaches copied, and denotes what it did. |
| `Take.TakingMoved` | pkg/urbit/noun/allocate.c:1094-1122 | A new slot is the copy of an object, and the new reference takes the place of its mug. |
| `Take.Deeper` | pkg/urbit/noun/allocate.c:1248-1284 | What is being copied is never a cell still open on the stack. |
| `BoxHeap.BoxSlot` | pkg/urbit/noun/allocate.c:43-65 | The list for a size, as it is computed. |
| `BoxHeap.SlotOrder` | pkg/urbit/noun/allocate.c:43-65 | Larger boxes are on later lists. |
| `BoxHeap.DetachFit` | pkg/urbit/noun/allocate.c:125-156 | Off its list, a box is on none, and the lists and boxes are otherwise as they were. |
| `BoxHeap.AttachFit` | pkg/urbit/noun/allocate.c:89-123 | A box put at the head of its list leaves the heap in order. |
| `BoxHeap.MergeFit` | pkg/urbit/noun/allocate.c:183-241 | Two neighbours become one box, with its size at both ends. |
| `BoxHeap.DivideFit` | pkg/urbit/noun/allocate.c:513-524 | A box is cut in two, and boxes still tile the heap. |
| `BoxHeap.GrowFit` | pkg/urbit/noun/allocate.c:273-307 | A new box at the open end leaves the heap in order. |
| `BoxHeap.ShrinkFit` | pkg/urbit/noun/allocate.c:199-203 | A loose box at the open end is given back, and the heap is in order. |
| `BoxHeap.ListExactly` | pkg/urbit/noun/allocate.c:43-157 | A box is on a list if and only if it is unused, on the list for its size alone, and once. |
| `BoxHeap.Covered` | pkg/urbit/noun/allocate.c:68-88 | Every word of the heap is in exactly one box. |
| `BoxHeap.SettledBelow` | pkg/urbit/noun/allocate.c:184-197 | Joining with the box below leaves no unused neighbour below. |
| `BoxHeap.SettledEnd` | pkg/urbit/noun/allocate.c:199-203 | Giving back a box at the open end leaves no unused box there. |
| `Allocator.AlignPad` | pkg/urbit/noun/allocate.c:245-257 | The padding is less than the alignment, and reaches it. |
| `Allocator.AlignDap` | pkg/urbit/noun/allocate.c:259-271 | The padding back is less than the alignment, and reaches it. |
| `Allocator.Road.BoxAttach` | pkg/urbit/noun/allocate.c:89-123 | Memory afterwards is that of `BoxHeap.Attached`. |
| `Allocator.Road.BoxDetach` | pkg/urbit/noun/allocate.c:125-156 | Memory afterwards is that of `BoxHeap.Detached`; the neighbours are never found corrupt. |
| `Allocator.Road.BoxFree` | pkg/urbit/noun/allocate.c:158-243 | A use is given up; a box with none left is joined with unused neighbours and listed, or given back at the open end. The heap stays in order, every other box in use is word for word as it was, and if no two neighbours were unused before, none are after. On both kinds of road. |
| `Allocator.Road.Search` | pkg/urbit/noun/allocate.c:423-484 | The box found is on a list searched and has room once aligned; if none is found, none there has. |
| `Allocator.LaterRoomy` | pkg/urbit/noun/allocate.c:423-436 | Without alignment, every box on a list after the size's own has room. |
| `Allocator.Road.Take` | pkg/urbit/noun/allocate.c:485-534 | The box found is off its list and in use, and what it leaves over is listed. |
| `Allocator.Road.MakeHat` | pkg/urbit/noun/allocate.c:273-307 | A new box at the open end, aligned; refused exactly when the box with its padding would not leave room. |
| `Allocator.Road.Willoc` | pkg/urbit/noun/allocate.c:420-538 | The block given was no one's, is large enough and aligned up to two words for every retry, and everyone else's are word for word as they were. There is no retry if and only if a listed box searched or the open end has room at the first alignment, or the cache is empty; each retry gives back 1024 cells. The open end is used only when no listed box has room, and it fails only when neither has and the cell cache is empty. |
| `Allocator.Road.Reflux` | pkg/urbit/noun/allocate.c:371-390 | Up to 1024 cached cells become free boxes, and clients' boxes are as they were. |
| `Allocator.Road.Malloc` | pkg/urbit/noun/allocate.c:672-695 | The words are at a multiple of four, with their distance into the box below them. If a listed box searched or the open end has room at the first alignment they lie within the box; otherwise the cache is emptied in steps of 1024 cells, and they do when the number of steps is even, and in a box of exactly the size asked for if and only if it is even or the padding is at least two. |
| `Allocator.RetryShort` | pkg/urbit/noun/allocate.c:423-467 | An empty road of 13 words with one cached cell is asked for 8: it gives words at a multiple of four that end two past the data of their box. |
| `Allocator.NoneLeft` | pkg/urbit/noun/allocate.c:158-243 | With no box in use, and unused neighbours merged, the heap is empty. |
| `Allocator.Road.Free` | pkg/urbit/noun/allocate.c:908-922 | The box is found back from the words, and freed. |
| `Allocator.Road.CellBlock` | pkg/urbit/noun/allocate.c:709-785 | A block of cells is added to the cache exactly when there is room for all of it. |
| `Allocator.Road.Celloc` | pkg/urbit/noun/allocate.c:787-829 | A cell comes from the cache if there is one, and is no one else's. |
| `Allocator.Road.Cfree` | pkg/urbit/noun/allocate.c:831-854 | A cell goes to the cache or, on the home road, to the heap. |
| `Allocator.Road.Trim` | pkg/urbit/noun/allocate.c:635-655 | The first words of a block are kept, and the rest becomes a listed box if it makes one. |
| `Compact.Seek` | pkg/urbit/noun/allocate.c:2289-2352 | The trailing word of every box in use holds its new address, and nothing else has changed. |
| `Compact.NewBoxDown` | pkg/urbit/noun/allocate.c:2289-2326 | Boxes only move down. |
| `Compact.NounUnique` | pkg/urbit/noun/allocate.c:1720-1735 | A word denotes at most one noun. |
| `Compact.Rewritten` | pkg/urbit/noun/allocate.c:1720-1732 | A pointer becomes one to the new place of its box. |
| `Compact.RewriteNoun` | pkg/urbit/noun/allocate.c:2521-2536 | The pointers in every cell reached are rewritten once, and the cell marked. |
| `Compact.MoveNext` | pkg/urbit/noun/allocate.c:2354-2399 | A box in use is at its new address with its size at both ends, its use count unmarked and its words as rewritten. |
| `Compact.MoveNorth` | pkg/urbit/noun/allocate.c:2354-2399 | Every box in use is so moved; the new end is the base and their sizes. |
| `Compact.PackedLaid` | pkg/urbit/noun/allocate.c:2354-2399 | The boxes tile the new heap from its base, all in use. |
| `Compact.NewInjective` | pkg/urbit/noun/allocate.c:1720-1732 | New pointers are equal exactly when the old ones were. |
| `Compact.NounMoved` | pkg/urbit/noun/allocate.c:2289-2536 | What a rewritten word denotes in the new heap is what the old word denoted in the old. |
| `Compact.ReachedMoved` | pkg/urbit/noun/allocate.c:2289-2536 | The fields of every cell that a noun reaches lead, in its new place, to the new places of what they led to. |
| `Compact.WordsMoved` | pkg/urbit/noun/allocate.c:2354-2399 | The other words of every box in use are the same in its new place. |
| `Compact.Pack` | pkg/urbit/noun/manage.c:1881-1905 | Every root denotes the noun it did; the roots, and the fields of every cell that they reach, lead to the new places of the boxes they led to; every other word of the boxes in use is as it was; they tile the heap from its base to its new end; nothing outside it changes. |

## Left out

- Nock 12 and virtualization: a scry bails, and a bail ends the run.
- Jets, their dashboard and call-site jet state: no jet fires. Side effects of hints (printing, priority, profiling) are dropped.
- The clock and the eviction of memo entries are parameters of the machine; its program cache by formula is not distinguished from compiling again.
- The noun hash (MurmurHash3) is an uninterpreted function to 31 bits; cached mugs in nouns are not part of `RefHeap`, `EditInPlace` and `Compact`.
- Memory exhaustion in the off-heap structures, where the original aborts, and the capacities of its growing arrays.
- Streams that end within an atom's declared length: the reader and the skipper are proved where the length fits what remains.
- BitReader.Bsr.ReadRubLen: does not model a stream that ends within the bits of a length, where the original reads zeros and succeeds; the model refuses it, and so does `CueRoot.CueBytes`.
- CueRoot.CueBytes: does not model a stream that ends within a length or the bits it announces, which the original reads on without complaint and the model refuses; nor does it say, of an arena that is not canonical or a stream that is not tight, exactly when memory runs out.
- Coins.CoinBytes: does not model the shift of a byte by more than 31 bits in a 32-bit int, but the 64-bit value it is meant to make; nor an atom of only zero bytes, which has no bit length there.
- The validating pass over a stream (`ur_cue_test`), and the readers `u3s_cue` and `u3s_cue_bytes`, which read the same grammar with the same stack.
- Hash tables of nouns are copied, marked, counted and freed by walks that only add easy members.
- NounSerial.JamFib: does not model the hash table of positions, which is a map.
- NounSerial.Fib.Grow: does not model the wrap-around of the original's capacity past the largest fibonacci number of 32 bits, where the model stops.
- `_ca_reclaim_half`: when the heap is full and the cell cache empty, allocation reports failure instead of trimming the memo cache and trying again.
- Allocator.Road.Malloc: does not say, of a call that has to retry, from the state before it which box is found and so whether the words fit; that depends on how the cells given back merge with their neighbours.
- Allocator.Road.Willoc: does not say which of several boxes with room is taken, beyond what `Allocator.Road.Search` says.
- Reallocation (`u3a_wealloc`, `u3a_realloc`): an allocation, a copy and a free.
- Compact.Pack: does not model the rewriting of hash tables and other structures that hold pointers, which are the list of roots here; every box in use holds a noun; the free lists and the cell cache, which the original empties afterwards, are not there.
- South-road compaction, and the unification of equal nouns after a comparison.
- EditInPlace.EditNoun: does not model the choice between word and bignum axes, nor running out of memory; between taking a part out of a cell and putting it back the model holds the part apart from the cell.
- RefHeap.Road.Lose: does not model the order in which a cell and its parts are freed.
- Take.TakeNoun: does not model the stack of the road, which is a sequence, nor the north and south tests on offsets, which are the cases of a reference; the cleaning of mug slots afterwards is not there.
- Meld.MeldAll: does not model the hash table that holds the cold jet state, which is among the roots; use counts are recomputed by tracing, which is not there.
- Snapshot.Pool.Save: does not model page mugs that collide, for verification is exact by hypothesis; the control file is written in one piece; the creation of a file is durable at once, while its removal may be undone by a crash until the next one is created. Backup copies are not there.
- Snapshot.Pool.Verify: does not model a patch memory file that is cut short: the original's short read is no error and leaves its buffer as it was, so that a missing page passes if what is there has the right mug; the model refuses it.
- DiskLog.Disk.Plan: does not model 64-bit overflow of event numbers, nor the linked list of the queue, which is a sequence.
- Reading events back in batches, the metadata of the log, and every file, thread and memory-map call beneath these protocols.
