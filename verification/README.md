# Verified model of a Bitcoin script engine and chain verifier

Dafny 4.11 proofs about four parts of the repository:

* the script interpreter: the stack object, every opcode handler, the execution loop and full verification of
  legacy, P2SH and SegWit v0 inputs (`Stack`, `ScriptNumbers`, `Semantics`, `Operations`, `Engine`), with theorems
  over whole runs (`OpcodeLaws`, `ControlFlow`, `Locality`, `Resources`, `MultiSignature`, `Templates`);
* signature-hash byte streams: the C++ hooks, the K walkers they stand for, the Python taproot message and the K
  taproot message (`Wire`, `SighashHooks`, `TaprootMessage`, `HookWire`, `KTaproot`, `SighashBlob`);
* script byte walkers and strict DER (`ScriptWalk`, `Der`);
* the header scan, the chain walk, the table of unspent outputs with its checkpoints, and runs that are stopped and
  resumed (`ChainIndex`, `Utxo`, `Ledger`, `ChainFiles`, `ChainVerifier`, `Restarts`, `RestartInstance`, `Checks`).

`dafny verify dfyconfig.toml` checks everything.

Code that changes state is modelled by classes and by methods with loops; each is proved against a function on
values, and the theorems are about those functions. `Bytes.dfy` holds byte strings and fixed-width integers.

## Conventions

* Calls into libraries are parameters: the script iterator (what it yields and whether it raises at the end), the
  hash functions, `SignatureHash`, ECDSA verification, and the verdict of the K semantics on an input given all prevouts
  of its transaction. Digest lengths are assumed only where a theorem says so.
* The number of headers between two looks at the chain length, 50,000 in the source, is a parameter of the scan.
* Block files are a list of headers and a function from places to blocks.
* Whether the witness and the signature hashes of an input can be written is a predicate of the transaction on the
  index and the coin; where it fails the source raises before the transaction spends anything.
* A Python exception is an `Err` with its kind, or `None`. Any other exception inside a script becomes
  `ScriptInvalid`, as in the source.
* A SHA-256 state is the string of bytes fed so far; a C pointer is an offset.
* The loop body of `_run_script` is split into two methods, the message builder and the blob builders into one method
  per loop.
* `asm.py` encodes numbers with the loop of `stack.py`, line for line; one model serves both.

## Where the code differs from what is said about it

* The repository's front page calls the Python interpreter a stub; it is complete, and modelled as it stands.
* Data pushes skip the stack-size guard, so the bound on both stacks is 1003 plus pushes, not 1000
  (`StacksBounded`), and it is reached (`StacksBoundReached`). Disabled and invalid opcodes fail only when executed.
  Numbers of any length are accepted.
* `lemmas.k` asserts that each streaming hook equals its K walker. For the five field hooks that is true. For the two
  legacy block hooks it is false on a buffer that ends inside a masked last record, and for inputs also when none are
  asked for at an offset past the end; `VinsBlockAgrees` and `VoutsBlockAgrees` give the exact condition,
  `AssertedOutputsFail`, `AssertedInputsFail` and `AssertedCountFails` an instance of each.
* The comment on `read_compact_size` says that the pointer is left alone on truncation; the code has advanced it past
  the marker by then (`TruncationMovesPointer`). No caller looks at it.
* The K taproot message takes two bits of the hash type for the base type, the Python one five. They part on hash
  types such as 0x06, which BIP 341 does not allow but neither side refuses; `MessagesEqualExactly` gives the exact
  condition, and `MessagesDiffer` and `MessagesShift` what happens otherwise. For SINGLE without a matching output
  Python commits to 32 zero bytes where K has no rule.
* `verify_chain` promises to resume from the checkpoint. Without an end the height it aims for depends on where it
  starts, so a resumed run may verify more than an uninterrupted one (`ResumedGetsFurther`); `SplitRunExactly` says
  when the two agree, `SplitRun` that with an end they always do.
* A run that starts beyond the checkpoint may leave a gap (`SkippingBreaksFold`; `SkippingExactly` says when). A block
  with errors is committed all the same.

## Model

| member | source | states |
|---|---|---|
| `ControlFlow.FlatRunsBlock` | `src/bitcoin_script/engine/engine.py:355-428` | Every well-nested program, with any number of ELSE segments, run by the flat condition list gives what a recursive evaluator gives that skips dead segments but counts their opcodes and applies the size guard: same stacks, same counter, same error |
| `ControlFlow.FlatRunsElses` | `src/bitcoin_script/engine/engine.py:394-405` | The same for a chain of ELSE segments up to ENDIF: segments alternate between live and dead |
| `ControlFlow.RunTracksDepth` | `src/bitcoin_script/engine/engine.py:382-405` | The condition list of a successful run is as long as the IF nesting depth of the script text |
| `ControlFlow.BalancedIsNested` | `src/bitcoin_script/engine/engine.py:382-428` | A script whose IFs, ELSEs and ENDIFs balance is the text of a well-nested program |
| `ControlFlow.ScriptRunsNested` | `src/bitcoin_script/engine/engine.py:349-428` | A script succeeds with given final stacks if and only if it is short enough, parses to the end, and is the text of some well-nested program that evaluates to those stacks |
| `ControlFlow.NestStepRefines` | `src/bitcoin_script/engine/engine.py:360-405` | One item on the condition list is one item on a pair of numbers: open branches, and how many of the outermost are live |
| `ControlFlow.NestRefines` | `src/bitcoin_script/engine/engine.py:355-428` | Whole runs on the condition list refine to runs on that pair |
| `ControlFlow.ConditionShape` | `src/bitcoin_script/engine/engine.py:355-405` | In every reachable state the condition list is trues followed by falses |
| `ControlFlow.IfStep` | `src/bitcoin_script/engine/engine.py:371-392` | An executing IF or NOTIF takes a number off the stack and opens a live branch for IF exactly if it is not zero, for NOTIF exactly if it is |
| `ControlFlow.IfElseRuns` | `src/bitcoin_script/engine/engine.py:359-405` | IF a ELSE b ENDIF on a number that is not zero does what a does alone, with b only counted and guarded; on zero it does what b does, with a passed that way; NOTIF the reverse; every error included |
| `ControlFlow.DeadBlock` | `src/bitcoin_script/engine/engine.py:359-409` | A block in a dead branch leaves the stacks alone, and its opcodes count and meet the guard |
| `Semantics.RunAppend` | `src/bitcoin_script/engine/engine.py:358-420` | Running a script in two parts is running the second from where the first ended |
| `Locality.ExecuteLocal` | `src/bitcoin_script/engine/engine.py:430-506` | An executed opcode that succeeds does the same over any elements put below both stacks, OP_DEPTH and out-of-range OP_PICK and OP_ROLL aside |
| `Locality.StepLocal` | `src/bitcoin_script/engine/engine.py:359-420` | The same for one item of the loop, provided the size guard lets the larger stacks through |
| `Locality.RunIsLocal` | `src/bitcoin_script/engine/engine.py:349-428` | A whole run that succeeds locally has over any base exactly two outcomes: the same result with both bases untouched if the guard has room at every item it looks at, the stack-size error otherwise |
| `Locality.DepthLooksBelow` | `src/bitcoin_script/engine/operations.py:185-187` | OP_DEPTH does see what lies below: one program, two bases, two results |
| `Resources.OpcodesCounted` | `src/bitcoin_script/engine/engine.py:371-375` | The counter of a successful run counts the opcodes above OP_16 in the script text, executed or not, and never passes 201 |
| `Resources.ExecuteGrowth` | `src/bitcoin_script/engine/operations.py:126-159` | No opcode makes the two stacks together grow by more than three |
| `Resources.StacksBounded` | `src/bitcoin_script/engine/engine.py:362-379` | Main and alt stack together hold at most the larger of the initial size and 1003, plus the data pushes since the last other item |
| `Resources.StacksBoundReached` | `src/bitcoin_script/engine/engine.py:363-379` | The bound is tight: for every number of trailing pushes some script runs from empty stacks to exactly 1003 plus that many elements |
| `Resources.ElementsBounded` | `src/bitcoin_script/engine/operations.py:214-345` | From elements of at most 520 bytes, every element of every reachable state has at most 520 plus the op count, so at most 721, bytes |
| `MultiSignature.GreedySound` | `src/bitcoin_script/engine/operations.py:505-517` | If the greedy pass accepts there is a strictly increasing assignment of signatures to keys under which each pair verifies |
| `MultiSignature.GreedyComplete` | `src/bitcoin_script/engine/operations.py:505-517` | If there is such an assignment the greedy pass accepts |
| `MultiSignature.GreedyExact` | `src/bitcoin_script/engine/operations.py:505-517` | The greedy pass accepts if and only if an assignment exists, for any signature predicate |
| `MultiSignature.GreedyReversed` | `src/bitcoin_script/engine/operations.py:474-517` | Taking both lists top-first gives the same answer as taking them in script order |
| `MultiSignature.MultiSigDecides` | `src/bitcoin_script/engine/operations.py:458-519` | On dummy, signatures, count, keys, count the opcode leaves true exactly when the signatures are assignable in script order |
| `MultiSignature.CheckSigDecides` | `src/bitcoin_script/engine/operations.py:397-442` | OP_CHECKSIG leaves true exactly if the signature is not empty, its hash type and the script code give a digest, with the amount under SegWit and without it otherwise, and the rest of it verifies on that digest under the key |
| `MultiSignature.CheckSigVerifyDecides` | `src/bitcoin_script/engine/operations.py:445-455` | The -VERIFY form leaves nothing, or fails |
| `MultiSignature.CheckSigUnderflows` | `src/bitcoin_script/engine/operations.py:415-416` | Both need a signature and a key |
| `MultiSignature.CheckMultiSigDecides` | `src/bitcoin_script/engine/operations.py:458-519` | The opcode byte does the same on any stacks, negative counts included; each pair is checked as OP_CHECKSIG checks |
| `MultiSignature.CheckMultiSigVerifyDecides` | `src/bitcoin_script/engine/operations.py:522-532` | Its -VERIFY form leaves nothing, or fails |
| `MultiSignature.LegacyIgnoresAmount` | `src/bitcoin_script/engine/operations.py:425-435` | A whole run outside SegWit is the same for every amount |
| `OpcodeLaws.OneElement` | `src/bitcoin_script/engine/operations.py:71-208` | On any stacks, by opcode byte: OP_IFDUP, OP_DROP, OP_DUP and OP_SIZE |
| `OpcodeLaws.TwoElements` | `src/bitcoin_script/engine/operations.py:81-203` | OP_2DROP, OP_2DUP, OP_NIP, OP_OVER, OP_SWAP and OP_TUCK |
| `OpcodeLaws.ThreeElements` | `src/bitcoin_script/engine/operations.py:94-133` | OP_3DUP and OP_ROT, which brings the third element up |
| `OpcodeLaws.PairsOfElements` | `src/bitcoin_script/engine/operations.py:142-175` | OP_2OVER, OP_2SWAP and OP_2ROT |
| `OpcodeLaws.AltStack` | `src/bitcoin_script/engine/engine.py:449-454` | An element goes to the alt stack and comes back |
| `OpcodeLaws.Picks` | `src/bitcoin_script/engine/operations.py:104-107` | Which element is copied for every count, negative ones and those out of range included |
| `OpcodeLaws.Rolls` | `src/bitcoin_script/engine/operations.py:110-115` | Which element is moved for every count; past the bottom it starts again from the top, once |
| `OpcodeLaws.OneNumber` | `src/bitcoin_script/engine/operations.py:228-261` | The unary arithmetic opcodes in terms of the numbers denoted |
| `OpcodeLaws.TwoNumbers` | `src/bitcoin_script/engine/operations.py:214-337` | OP_ADD, OP_SUB, OP_MIN and OP_MAX |
| `OpcodeLaws.Equalities` | `src/bitcoin_script/engine/operations.py:264-358` | OP_EQUAL compares bytes; OP_BOOLAND, OP_BOOLOR, OP_NUMEQUAL and OP_NUMNOTEQUAL compare numbers |
| `OpcodeLaws.Comparisons` | `src/bitcoin_script/engine/operations.py:298-345` | The four order comparisons and OP_WITHIN, which includes its lower bound only |
| `OpcodeLaws.Verifications` | `src/bitcoin_script/engine/operations.py:285-361` | OP_VERIFY and two -VERIFY forms leave nothing or fail |
| `OpcodeLaws.Digests` | `src/bitcoin_script/engine/operations.py:367-394` | The five digest opcodes in terms of the hash functions |
| `OpcodeLaws.Underflows` | `src/bitcoin_script/engine/stack.py:30-52` | How many elements each opcode needs: with fewer the stack underflows |
| `OpcodeLaws.Idle` | `src/bitcoin_script/engine/engine.py:441-467` | The bytes that do nothing, and the two lock-time opcodes, which ask for one element |
| `OpcodeLaws.Failing` | `src/bitcoin_script/engine/engine.py:433-506` | The bytes that are disabled, and those that are invalid |
| `OpcodeLaws.PushLimit` | `src/bitcoin_script/engine/engine.py:362-368` | A push of up to 520 bytes goes on the stack, uncounted and unguarded; a longer one fails |
| `OpcodeLaws.OpcodeLimits` | `src/bitcoin_script/engine/engine.py:370-379` | The 202nd opcode above 0x60 fails first, then more than 1000 elements; only those opcodes count |
| `OpcodeLaws.SmallNumbers` | `src/bitcoin_script/engine/engine.py:411-416` | OP_1NEGATE and OP_1 to OP_16 push one byte |
| `OpcodeLaws.Executed` | `src/bitcoin_script/engine/engine.py:370-420` | In a live branch within the limits, any byte above 0x60 that is not control flow does what it does when executed, and counts one |
| `OpcodeLaws.ScriptLimit` | `src/bitcoin_script/engine/engine.py:349-353` | A script longer than 10,000 bytes fails before anything runs |
| `OpcodeLaws.RotThrice` | `src/bitcoin_script/engine/operations.py:94-101` | OP_ROT three times changes nothing |
| `OpcodeLaws.SwappedSub` | `src/bitcoin_script/engine/operations.py:81-243` | OP_SWAP OP_SUB leaves what OP_SUB OP_NEGATE leaves |
| `OpcodeLaws.SubThenAdd` | `src/bitcoin_script/engine/operations.py:118-225` | OP_2DUP OP_SUB OP_ADD leaves the lower element and its number again |
| `OpcodeLaws.WithinByComparing` | `src/bitcoin_script/engine/operations.py:305-345` | OP_WITHIN leaves what two comparisons joined by OP_BOOLAND leave |
| `Templates.TemplateShapes` | `src/bitcoin_script/engine/engine.py:73-86` | The three templates are the byte strings they stand for, and no others |
| `Templates.P2wpkhClosedForm` | `src/bitcoin_script/engine/engine.py:265-304` | A P2WPKH spend is valid if and only if the witness is a signature and a key that hashes to the program, a transaction is present and the signature verifies under the key on the digest of the pay-to-public-key-hash script with the amount |
| `Templates.P2wshClosedForm` | `src/bitcoin_script/engine/engine.py:306-343` | A P2WSH spend is valid if and only if the last witness item has the program as its SHA-256 and runs to true on exactly the other items |
| `Templates.P2shClosedForm` | `src/bitcoin_script/engine/engine.py:195-248` | A P2SH spend is valid if and only if the scriptSig runs and leaves fewer than 1000 elements, its top hashes to the committed hash and the redeem step accepts |
| `Templates.RedeemClosedForm` | `src/bitcoin_script/engine/engine.py:222-248` | The redeem step is the run of the redeem script on the rest of the stack, the P2WPKH formula or the P2WSH run, by the shape of the redeem script |
| `Templates.P2wpkhAccepted` | `src/bitcoin_script/engine/engine.py:137-182` | Full verification of a native P2WPKH input accepts if and only if the scriptSig is empty and the witness signs for the program |
| `Templates.P2wshAccepted` | `src/bitcoin_script/engine/engine.py:137-182` | Full verification of a native P2WSH input accepts if and only if the scriptSig is empty and the last witness item hashes to the program and runs to true on the others, as script code and under SegWit |
| `Templates.P2shAccepted` | `src/bitcoin_script/engine/engine.py:137-248` | Full verification of a P2SH input accepts if and only if a scriptSig of at most 10,000 bytes leaves the committed redeem script on top with room to spare and, plain or nested, that script is satisfied |
| `Templates.PlainAccepted` | `src/bitcoin_script/engine/engine.py:137-220` | Any other input, or one whose rule is not enabled, is accepted if and only if both scripts are at most 10,000 bytes and the output script runs to true on both stacks of the scriptSig, without SegWit |
| `Engine.ScriptEngine.constructor` | `src/bitcoin_script/engine/engine.py:112-122` | A new engine has empty stacks and no transaction |
| `Engine.ScriptEngine.Reset` | `src/bitcoin_script/engine/engine.py:124-131` | Resetting gives back that state |
| `Engine.ScriptEngine.ExecuteOpcode` | `src/bitcoin_script/engine/engine.py:430-506` | The dispatcher and every handler behind it do to the shared stack object what the value semantics says, error cases included |
| `Engine.ScriptEngine.ExecuteLive` | `src/bitcoin_script/engine/engine.py:411-420` | Small-integer pushes and everything else, against the same semantics |
| `Engine.ScriptEngine.ExecuteItem` | `src/bitcoin_script/engine/engine.py:359-420` | One pass of the loop body is one step of the semantics |
| `Engine.ScriptEngine.RunScript` | `src/bitcoin_script/engine/engine.py:349-428` | The loop computes the run of the semantics: final stacks on success, the first error otherwise |
| `Engine.ScriptEngine.Execute` | `src/bitcoin_script/engine/engine.py:250-259` | The answer is whether the run ends with a true top; an error is passed on |
| `Engine.ScriptEngine.VerifyP2wpkh` | `src/bitcoin_script/engine/engine.py:265-304` | The method decides the value-level formula that the closed form is proved about |
| `Engine.ScriptEngine.VerifyP2wsh` | `src/bitcoin_script/engine/engine.py:306-343` | Likewise for P2WSH: script hash, then the run on the remaining witness items |
| `Engine.ScriptEngine.VerifyLegacy` | `src/bitcoin_script/engine/engine.py:195-248` | Likewise for the two phases and P2SH, the alt stack carried from phase to phase |
| `Engine.ScriptEngine.Verify` | `src/bitcoin_script/engine/engine.py:137-248` | Full verification decides one predicate of the arguments, whatever the object held before |
| `Stack.ScriptStack.Push` | `src/bitcoin_script/engine/stack.py:26-28` | The main stack gains one element on top, the alt stack keeps its elements |
| `Stack.ScriptStack.Pop` | `src/bitcoin_script/engine/stack.py:30-38` | The top comes off, or the stack underflows and nothing changes |
| `Stack.ScriptStack.Peek` | `src/bitcoin_script/engine/stack.py:40-52` | Python indexing from either end, underflow outside |
| `Stack.ScriptStack.PushAlt` | `src/bitcoin_script/engine/stack.py:64-66` | The alt stack gains one element |
| `Stack.ScriptStack.PopAlt` | `src/bitcoin_script/engine/stack.py:68-76` | The alt top comes off, or the alt stack underflows |
| `Operations.OpDup` | `src/bitcoin_script/engine/operations.py:71-73` | Pops and pushes come to the bottom-first table row of Dup; too few elements underflow |
| `Operations.OpDrop` | `src/bitcoin_script/engine/operations.py:76-78` | Pops and pushes come to the bottom-first table row of Drop; too few elements underflow |
| `Operations.OpSwap` | `src/bitcoin_script/engine/operations.py:81-86` | Pops and pushes come to the bottom-first table row of Swap; too few elements underflow |
| `Operations.OpOver` | `src/bitcoin_script/engine/operations.py:89-91` | Pops and pushes come to the bottom-first table row of Over; too few elements underflow |
| `Operations.OpRot` | `src/bitcoin_script/engine/operations.py:94-101` | Pops and pushes come to the bottom-first table row of Rot; too few elements underflow |
| `Operations.OpPick` | `src/bitcoin_script/engine/operations.py:104-107` | Copies by Python index: a negative count reaches from the bottom; underflow outside |
| `Operations.OpRoll` | `src/bitcoin_script/engine/operations.py:110-115` | Moves by Python index: a count past the bottom wraps once; an index error beyond |
| `Operations.Op2Dup` | `src/bitcoin_script/engine/operations.py:118-123` | Pops and pushes come to the bottom-first table row of 2Dup; too few elements underflow |
| `Operations.Op3Dup` | `src/bitcoin_script/engine/operations.py:126-133` | Pops and pushes come to the bottom-first table row of 3Dup; too few elements underflow |
| `Operations.Op2Drop` | `src/bitcoin_script/engine/operations.py:136-139` | Pops and pushes come to the bottom-first table row of 2Drop; too few elements underflow |
| `Operations.Op2Swap` | `src/bitcoin_script/engine/operations.py:142-151` | Pops and pushes come to the bottom-first table row of 2Swap; too few elements underflow |
| `Operations.Op2Over` | `src/bitcoin_script/engine/operations.py:154-159` | Pops and pushes come to the bottom-first table row of 2Over; too few elements underflow |
| `Operations.Op2Rot` | `src/bitcoin_script/engine/operations.py:162-175` | Pops and pushes come to the bottom-first table row of 2Rot; too few elements underflow |
| `Operations.OpIfDup` | `src/bitcoin_script/engine/operations.py:178-182` | Pops and pushes come to the bottom-first table row of IfDup; too few elements underflow |
| `Operations.OpDepth` | `src/bitcoin_script/engine/operations.py:185-187` | Pushes the encoded height of the main stack |
| `Operations.OpNip` | `src/bitcoin_script/engine/operations.py:190-194` | Pops and pushes come to the bottom-first table row of Nip; too few elements underflow |
| `Operations.OpTuck` | `src/bitcoin_script/engine/operations.py:197-203` | Pops and pushes come to the bottom-first table row of Tuck; too few elements underflow |
| `Operations.OpSize` | `src/bitcoin_script/engine/operations.py:206-208` | Pops and pushes come to the bottom-first table row of Size; too few elements underflow |
| `Operations.OpAdd` | `src/bitcoin_script/engine/operations.py:214-218` | Pops and pushes come to the bottom-first table row of Add; too few elements underflow |
| `Operations.OpSub` | `src/bitcoin_script/engine/operations.py:221-225` | Pops and pushes come to the bottom-first table row of Sub; too few elements underflow |
| `Operations.Op1Add` | `src/bitcoin_script/engine/operations.py:228-231` | Pops and pushes come to the bottom-first table row of 1Add; too few elements underflow |
| `Operations.Op1Sub` | `src/bitcoin_script/engine/operations.py:234-237` | Pops and pushes come to the bottom-first table row of 1Sub; too few elements underflow |
| `Operations.OpNegate` | `src/bitcoin_script/engine/operations.py:240-243` | Pops and pushes come to the bottom-first table row of Negate; too few elements underflow |
| `Operations.OpAbs` | `src/bitcoin_script/engine/operations.py:246-249` | Pops and pushes come to the bottom-first table row of Abs; too few elements underflow |
| `Operations.OpNot` | `src/bitcoin_script/engine/operations.py:252-255` | Pops and pushes come to the bottom-first table row of Not; too few elements underflow |
| `Operations.Op0NotEqual` | `src/bitcoin_script/engine/operations.py:258-261` | Pops and pushes come to the bottom-first table row of 0NotEqual; too few elements underflow |
| `Operations.OpBoolAnd` | `src/bitcoin_script/engine/operations.py:264-268` | Pops and pushes come to the bottom-first table row of BoolAnd; too few elements underflow |
| `Operations.OpBoolOr` | `src/bitcoin_script/engine/operations.py:271-275` | Pops and pushes come to the bottom-first table row of BoolOr; too few elements underflow |
| `Operations.OpNumEqual` | `src/bitcoin_script/engine/operations.py:278-282` | Pops and pushes come to the bottom-first table row of NumEqual; too few elements underflow |
| `Operations.OpNumEqualVerify` | `src/bitcoin_script/engine/operations.py:285-288` | The composition of two handlers is the single table row |
| `Operations.OpNumNotEqual` | `src/bitcoin_script/engine/operations.py:291-295` | Pops and pushes come to the bottom-first table row of NumNotEqual; too few elements underflow |
| `Operations.OpLessThan` | `src/bitcoin_script/engine/operations.py:298-302` | Pops and pushes come to the bottom-first table row of LessThan; too few elements underflow |
| `Operations.OpGreaterThan` | `src/bitcoin_script/engine/operations.py:305-309` | Pops and pushes come to the bottom-first table row of GreaterThan; too few elements underflow |
| `Operations.OpLessThanOrEqual` | `src/bitcoin_script/engine/operations.py:312-316` | Pops and pushes come to the bottom-first table row of LessThanOrEqual; too few elements underflow |
| `Operations.OpGreaterThanOrEqual` | `src/bitcoin_script/engine/operations.py:319-323` | Pops and pushes come to the bottom-first table row of GreaterThanOrEqual; too few elements underflow |
| `Operations.OpMin` | `src/bitcoin_script/engine/operations.py:326-330` | Pops and pushes come to the bottom-first table row of Min; too few elements underflow |
| `Operations.OpMax` | `src/bitcoin_script/engine/operations.py:333-337` | Pops and pushes come to the bottom-first table row of Max; too few elements underflow |
| `Operations.OpWithin` | `src/bitcoin_script/engine/operations.py:340-345` | Pops and pushes come to the bottom-first table row of Within; too few elements underflow |
| `Operations.OpEqual` | `src/bitcoin_script/engine/operations.py:351-355` | Pops and pushes come to the bottom-first table row of Equal; too few elements underflow |
| `Operations.OpEqualVerify` | `src/bitcoin_script/engine/operations.py:358-361` | The composition of two handlers is the single table row |
| `Operations.OpRipemd160` | `src/bitcoin_script/engine/operations.py:367-370` | Replaces the top by its digest, or underflows |
| `Operations.OpSha1` | `src/bitcoin_script/engine/operations.py:373-376` | Replaces the top by its digest, or underflows |
| `Operations.OpSha256` | `src/bitcoin_script/engine/operations.py:379-382` | Replaces the top by its digest, or underflows |
| `Operations.OpHash160` | `src/bitcoin_script/engine/operations.py:385-388` | Replaces the top by its digest, or underflows |
| `Operations.OpHash256` | `src/bitcoin_script/engine/operations.py:391-394` | Replaces the top by its digest, or underflows |
| `Operations.OpVerify` | `src/bitcoin_script/engine/operations.py:538-545` | Fails on a false top; the top is gone either way |
| `Operations.VerifyAfter` | `src/bitcoin_script/engine/operations.py:285-288` | Comparing and then verifying is the row of the -VERIFY opcode, for both such opcodes |
| `Operations.VerifySignature` | `src/bitcoin_script/engine/operations.py:482-503` | An empty signature, a hash that raises and a library error all count as not verified |
| `Operations.OpCheckSig` | `src/bitcoin_script/engine/operations.py:397-442` | Key and signature come off, the answer goes on |
| `Operations.OpCheckSigVerify` | `src/bitcoin_script/engine/operations.py:445-455` | Fails unless the signature verifies |
| `Operations.PopList` | `src/bitcoin_script/engine/operations.py:474-478` | A count and then that many elements come off, top first; a negative count takes none |
| `Operations.MatchSignatures` | `src/bitcoin_script/engine/operations.py:505-517` | The loop with its forward-only key index computes the greedy predicate |
| `Operations.OpCheckMultiSig` | `src/bitcoin_script/engine/operations.py:458-519` | Both lists and the dummy come off, the answer of the greedy pass goes on |
| `Operations.OpCheckMultiSigVerify` | `src/bitcoin_script/engine/operations.py:522-532` | Fails unless the signatures match |
| `Operations.Dispatch` | `src/bitcoin_script/engine/operations.py:43-52` | Every opcode reaches the handler of its own row; one without a handler is invalid |
| `ScriptNumbers.ElementToInt` | `src/bitcoin_script/engine/stack.py:99-114` | Summing bytes and clearing the sign bit by exclusive-or gives the number that clearing it first gives |
| `ScriptNumbers.IntToElement` | `src/bitcoin_script/engine/stack.py:117-135` | The byte loop and the sign step compute the encoding the round trips below are about |
| `ScriptNumbers.ElementToBool` | `src/bitcoin_script/engine/stack.py:81-96` | The byte scan answers whether the number is not zero, negative zero included |
| `ScriptNumbers.EncodeRoundTrip` | `src/bitcoin_script/engine/stack.py:99-135` | Decoding inverts encoding for every integer, and every encoding is minimal |
| `ScriptNumbers.MinimalUnique` | `src/bitcoin_script/engine/stack.py:99-135` | Two minimal encodings of one number are the same bytes |
| `ScriptNumbers.MinimalNoLonger` | `src/bitcoin_script/engine/stack.py:117-135` | No encoding of a number is shorter than its minimal one |
| `ScriptNumbers.DecodeRoundTrip` | `src/bitcoin_script/script_utils.py:11-16` | Re-encoding a decoded string gives it back exactly when it was minimal, and never lengthens it |
| `ScriptNumbers.EncodeInjective` | `src/bitcoin_script/asm.py:161-175` | Different integers have different encodings |
| `ScriptNumbers.EncodeLength` | `src/bitcoin_script/engine/stack.py:117-135` | k bytes are enough exactly for magnitudes below 2^(8k-1) |
| `ScriptNumbers.KEncodeAgrees` | `src/bitcoin_script/k_semantics/kdist/script-semantics/script-num.k:137-188` | The eight-range table of the K semantics builds the same bytes wherever it has a rule, that is up to four magnitude bytes |
| `ScriptNumbers.KDecodeAgrees` | `src/bitcoin_script/k_semantics/kdist/script-semantics/script-num.k:46-63` | The K decoder is the Python one |
| `ScriptNumbers.KNumbersHold` | `src/bitcoin_script/k_semantics/kdist/script-semantics/lemmas.k:18-40` | What the K lemmas assert of their numbers holds on all of the table: round trip, minimality, and four bytes exactly up to 2147483647 |
| `ScriptWalk.TokensRead` | `src/bitcoin_script/script_utils.py:173-253` | Every byte string, truncated pushes included, has a reading into opcodes |
| `ScriptWalk.TokensUnique` | `src/bitcoin_script/script_utils.py:173-253` | and only one |
| `ScriptWalk.RemoveClean` | `src/bitcoin_script/script_utils.py:221-253` | After removal no separator is left, removing again changes nothing, every push survives, and the length drops by the number of positions found |
| `ScriptWalk.RemoveSplits` | `src/bitcoin_script/script_utils.py:201-253` | At every position found the script splits: removal of the whole is removal of the part up to the separator followed by removal of the rest |
| `ScriptWalk.KRemovalAgrees` | `src/bitcoin_script/k_semantics/kdist/script-semantics/script-sighash.k:782-815` | The accumulating K walker removes the same bytes |
| `ScriptWalk.PushIsSmallest` | `src/bitcoin_script/asm.py:178-189` | No other opcode pushes the same bytes behind a shorter header |
| `ScriptWalk.PushRoundTrip` | `src/bitcoin_script/asm.py:178-189` | Extracting pushes gives back what was encoded, empty items aside, and no data byte is taken for a separator |
| `ScriptWalk.ReadOpcode` | `src/bitcoin_script/script_utils.py:178-195` | The branches all walkers share find header and data of the opcode at a position |
| `ScriptWalk.ExtractPushData` | `src/bitcoin_script/script_utils.py:173-198` | The loop collects the data of every push of the reading |
| `ScriptWalk.ExtractLastPush` | `src/bitcoin_script/script_utils.py:118-143` | The loop returns the last of those, or nothing |
| `ScriptWalk.FindCodesepPositions` | `src/bitcoin_script/script_utils.py:201-218` | The loop finds where each separator of the reading ends |
| `ScriptWalk.RemoveCodeseparators` | `src/bitcoin_script/script_utils.py:221-253` | The loop keeps the text of every other opcode |
| `Wire.CompactSizeReads` | `src/bitcoin_script/blockchain/verifier.py:109-117` | Reading undoes writing for every size up to eight bytes, whatever follows |
| `Wire.InRoundTrip` | `src/bitcoin_script/k_semantics/kdist/bitcoin-sighash-plugin/c/bitcoin_sighash.cpp:15-17` | An input read from its bytes is the input, and what follows is left |
| `Wire.OutRoundTrip` | `src/bitcoin_script/k_semantics/kdist/bitcoin-sighash-plugin/c/bitcoin_sighash.cpp:18-19` | The same for an output, amounts being signed 64-bit |
| `ByteStrings.ReadManyJoined` | `src/bitcoin_script/k_semantics/kdist/bitcoin-sighash-plugin/c/bitcoin_sighash.cpp:15-19` | Reading a joined string as that many records gives back exactly the records, for any encoding that can be read back |
| `Wire.BlocksRoundTrip` | `src/bitcoin_script/k_semantics/kdist/bitcoin-sighash-plugin/c/bitcoin_sighash.cpp:15-19` | A counted block of inputs or outputs reads back as exactly those records |
| `SighashHooks.ReadCompactSizeAgrees` | `src/bitcoin_script/k_semantics/kdist/bitcoin-sighash-plugin/c/bitcoin_sighash.cpp:84-107` | The C reader reads what the general one reads, except that the largest number passes for a truncation |
| `SighashHooks.TruncationMovesPointer` | `src/bitcoin_script/k_semantics/kdist/bitcoin-sighash-plugin/c/bitcoin_sighash.cpp:82-108` | On truncation the pointer is unchanged if and only if it already stood at or past the end; otherwise it is one byte further |
| `SighashHooks.ArgumentsWrap` | `src/bitcoin_script/k_semantics/kdist/bitcoin-sighash-plugin/c/bitcoin_sighash.cpp:163-166` | Offsets, counts and indices are taken modulo 2^64, negative ones as zero |
| `SighashHooks.CutRecordFed` | `src/bitcoin_script/k_semantics/kdist/bitcoin-sighash-plugin/c/bitcoin_sighash.cpp:174-273` | Where the first record is cut off, the outpoint and amount hooks have already fed its first field and the others nothing |
| `SighashHooks.StreamVins` | `src/bitcoin_script/k_semantics/kdist/bitcoin-sighash-plugin/c/bitcoin_sighash.cpp:292-316` | The loop behind the count prefix is the walk over modified inputs |
| `SighashHooks.StreamVouts` | `src/bitcoin_script/k_semantics/kdist/bitcoin-sighash-plugin/c/bitcoin_sighash.cpp:339-352` | The loop behind the count prefix is the walk over modified outputs |
| `SighashHooks.OutpointsStream` | `src/bitcoin_script/k_semantics/kdist/bitcoin-sighash-plugin/c/bitcoin_sighash.cpp:174-194` | Feeds the outpoint of every record it reaches; a truncated one may still contribute its outpoint; a state blob of the wrong size gives the empty one. The loop refines the walk the lemmas below are about |
| `SighashHooks.SequencesStream` | `src/bitcoin_script/k_semantics/kdist/bitcoin-sighash-plugin/c/bitcoin_sighash.cpp:196-215` | Feeds the sequence of every whole record; a state blob of the wrong size gives the empty one. The loop refines the walk the lemmas below are about |
| `SighashHooks.VoutsStream` | `src/bitcoin_script/k_semantics/kdist/bitcoin-sighash-plugin/c/bitcoin_sighash.cpp:217-236` | Feeds every whole output; a state blob of the wrong size gives the empty one. The loop refines the walk the lemmas below are about |
| `SighashHooks.PrevoutAmountsStream` | `src/bitcoin_script/k_semantics/kdist/bitcoin-sighash-plugin/c/bitcoin_sighash.cpp:238-255` | Feeds the amount of every record; a truncated one may still contribute its amount; a state blob of the wrong size gives the empty one. The loop refines the walk the lemmas below are about |
| `SighashHooks.PrevoutScriptsStream` | `src/bitcoin_script/k_semantics/kdist/bitcoin-sighash-plugin/c/bitcoin_sighash.cpp:257-273` | Feeds every whole length-prefixed script; a state blob of the wrong size gives the empty one. The loop refines the walk the lemmas below are about |
| `SighashHooks.LegacyVinsBlockStream` | `src/bitcoin_script/k_semantics/kdist/bitcoin-sighash-plugin/c/bitcoin_sighash.cpp:275-318` | Offset check first, then count prefix and modified inputs; a state blob of the wrong size gives the empty one. The loop refines the walk the lemmas below are about |
| `SighashHooks.LegacyVoutsBlockStream` | `src/bitcoin_script/k_semantics/kdist/bitcoin-sighash-plugin/c/bitcoin_sighash.cpp:320-354` | Count prefix first, then offset check and modified outputs; a state blob of the wrong size gives the empty one. The loop refines the walk the lemmas below are about |
| `SighashHooks.WalksAgree` | `src/bitcoin_script/k_semantics/kdist/script-semantics/lemmas.k:100-160` | Where the K walker is defined the hook feeds the same bytes if and only if the last record is not a masked one that ends past the buffer |
| `SighashHooks.FieldHooksAgree` | `src/bitcoin_script/k_semantics/kdist/script-semantics/lemmas.k:116-138` | The asserted equality of the five field hooks with their walkers holds wherever the walker is defined |
| `SighashHooks.VinsBlockAgrees` | `src/bitcoin_script/k_semantics/kdist/script-semantics/lemmas.k:149-152` | The asserted equality of the input-block hook holds if and only if, with no inputs, the offset is inside the buffer and, with some, the last is not a masked one that ends past it |
| `SighashHooks.VoutsBlockAgrees` | `src/bitcoin_script/k_semantics/kdist/script-semantics/lemmas.k:154-157` | The asserted equality of the output-block hook holds if and only if the last output is not a masked one that ends past the buffer |
| `SighashHooks.AssertedOutputsFail` | `src/bitcoin_script/k_semantics/kdist/script-semantics/lemmas.k:154-157` | An instance: one cut-off output under SINGLE |
| `SighashHooks.AssertedInputsFail` | `src/bitcoin_script/k_semantics/kdist/script-semantics/lemmas.k:149-152` | An instance for inputs: one cut-off input under NONE |
| `SighashHooks.AssertedCountFails` | `src/bitcoin_script/k_semantics/kdist/script-semantics/lemmas.k:149-152` | The other instance for inputs: none asked for at an offset past the end |
| `HookWire.InputStreamsMatch` | `src/bitcoin_script/k_semantics/kdist/bitcoin-sighash-plugin/c/bitcoin_sighash.cpp:174-215` | On serialized inputs anywhere in a buffer the two input hooks feed exactly the outpoint and sequence strings that the Python code hashes |
| `HookWire.OutputStreamMatches` | `src/bitcoin_script/k_semantics/kdist/bitcoin-sighash-plugin/c/bitcoin_sighash.cpp:217-236` | On serialized outputs the hook feeds exactly the output string that the Python code hashes |
| `HookWire.PrevoutStreamsMatch` | `src/bitcoin_script/k_semantics/kdist/bitcoin-sighash-plugin/c/bitcoin_sighash.cpp:238-273` | On the blob of prevouts the two prevout hooks feed exactly the amount and script strings that the Python code hashes |
| `Wire.PrevoutsBlob` | `src/bitcoin_script/blockchain/verifier.py:587-600` | The blob is the serialized prevouts if all are known and no amount is negative, empty if one is unknown, and an exception otherwise |
| `HookWire.LegacyInputBlock` | `src/bitcoin_script/k_semantics/kdist/bitcoin-sighash-plugin/c/bitcoin_sighash.cpp:275-318` | What the hook adds reads back as exactly n inputs, the signed one with the script code, the others emptied and, under NONE or SINGLE, with zero sequences |
| `HookWire.LegacyOutputBlock` | `src/bitcoin_script/k_semantics/kdist/bitcoin-sighash-plugin/c/bitcoin_sighash.cpp:320-354` | What the hook adds reads back as exactly n outputs, those below the index replaced under SINGLE by amount -1 and an empty script |
| `TaprootMessage.ParseInvertsSerialize` | `src/bitcoin_script/blockchain/verifier.py:155-233` | The message bytes determine the hash type and every committed field: a reader inverts the assembly for all hash types, ANYONECANPAY, NONE, SINGLE, annex and extension flags |
| `TaprootMessage.JoinOutpoints` | `src/bitcoin_script/blockchain/verifier.py:169-171` | The loop joins the outpoints in list order, with nothing between them |
| `TaprootMessage.JoinAmounts` | `src/bitcoin_script/blockchain/verifier.py:175-177` | The loop joins the amounts in list order, with nothing between them |
| `TaprootMessage.JoinScripts` | `src/bitcoin_script/blockchain/verifier.py:181-183` | The loop joins the length-prefixed scripts in list order, with nothing between them |
| `TaprootMessage.JoinSequences` | `src/bitcoin_script/blockchain/verifier.py:187-189` | The loop joins the sequences in list order, with nothing between them |
| `TaprootMessage.JoinOutputs` | `src/bitcoin_script/blockchain/verifier.py:194-197` | The loop joins the outputs in list order, with nothing between them |
| `TaprootMessage.HashInputs` | `src/bitcoin_script/blockchain/verifier.py:167-190` | The four hashes over all inputs, in the order the layout gives them |
| `TaprootMessage.Message` | `src/bitcoin_script/blockchain/verifier.py:128-233` | Appending piece by piece gives the layout that the reader inverts; it raises exactly when ANYONECANPAY meets an index out of range or a leaf is missing |
| `TaprootMessage.MessageLayout` | `src/bitcoin_script/blockchain/verifier.py:128-233` | The message byte by byte, from the hash type and the call: which digests and fields stand where, and 32 zero bytes for SINGLE without an output |
| `TaprootMessage.TaprootSighash` | `src/bitcoin_script/blockchain/verifier.py:128-235` | The tagged hash of that message |
| `ByteStrings.JoinedInjective` | `src/bitcoin_script/blockchain/verifier.py:168-198` | A joined string determines its list, for any encoding that can be read back |
| `TaprootMessage.MessageDeterminesContents` | `src/bitcoin_script/blockchain/verifier.py:128-235` | Two calls with one message agree on every input, amount, script, output, annex and leaf the hash type covers, unless SHA-256 collides on their own strings |
| `TaprootMessage.SighashDeterminesContents` | `src/bitcoin_script/blockchain/verifier.py:120-235` | The same from the tagged hash |
| `KTaproot.TxLaidOut` | `src/bitcoin_script/k_semantics/kdist/script-semantics/script-tx.k:57-171` | The K accessors find counts, inputs and outputs of a serialized transaction, with or without witness data |
| `KTaproot.VinFieldsOnWire` | `src/bitcoin_script/k_semantics/kdist/script-semantics/script-tx.k:97-141` | Outpoint and sequence found by index are those of that input |
| `KTaproot.VoutOnWire` | `src/bitcoin_script/k_semantics/kdist/script-semantics/script-tx.k:178-215` | The output found by index is that output |
| `KTaproot.PrevoutOnWire` | `src/bitcoin_script/k_semantics/kdist/script-semantics/script-tx.k:237-262` | Amount and script found by index in the blob are those of that prevout |
| `KTaproot.BaseNames` | `src/bitcoin_script/k_semantics/kdist/script-semantics/script-sighash.k:386-388` | Two bits and five bits of the hash type name the same base type if and only if a condition on the hash type holds |
| `KTaproot.MessagesAgree` | `src/bitcoin_script/k_semantics/kdist/script-semantics/script-sighash.k:456-510` | The K message, read by offset and streamed through the hooks, is the Python message, key path and script path alike; for SINGLE without an output K has none |
| `KTaproot.MessagesDiffer` | `src/bitcoin_script/k_semantics/kdist/script-semantics/script-sighash.k:386-411` | Where K reads NONE and Python does not, the K message is 32 bytes shorter |
| `KTaproot.MessagesShift` | `src/bitcoin_script/k_semantics/kdist/script-semantics/script-sighash.k:386-446` | Where K reads SINGLE and Python does not, K has no message without a matching output, and with one the two are equal if and only if a digest before and another behind the middle of the message leave the same bytes |
| `KTaproot.MessagesEqualExactly` | `src/bitcoin_script/k_semantics/kdist/script-semantics/script-sighash.k:386-510` | Over every hash type the two messages are equal if and only if both sides read the same base type and SINGLE has its output, or else K alone reads SINGLE and the two digests leave the same bytes |
| `SighashBlob.LookupIsFirst` | `src/bitcoin_script/k_semantics/kdist/script-semantics/script-crypto.k:57-80` | On any list of 35-byte entries the lookup returns the hash of the first entry with the key, and the empty string if there is none |
| `SighashBlob.FirstIsFirst` | `src/bitcoin_script/k_semantics/kdist/script-semantics/script-crypto.k:64-73` | First means that no earlier entry has the key |
| `SighashBlob.FirstMisses` | `src/bitcoin_script/k_semantics/kdist/script-semantics/script-crypto.k:75-80` | and nothing is found exactly because no entry has it |
| `SighashBlob.TableLookup` | `src/bitcoin_script/blockchain/verifier.py:390-408` | A table of hashes as a blob has distinct keys and is a map: each hash under its key, nothing under any other |
| `SighashBlob.CollectSubscripts` | `src/bitcoin_script/blockchain/verifier.py:384-392` | One subscript for the whole script and one for what follows each separator |
| `SighashBlob.LegacyBlob` | `src/bitcoin_script/blockchain/verifier.py:378-408` | The loops write the table, or raise if an index does not fit two bytes |
| `SighashBlob.LegacyLookup` | `src/bitcoin_script/blockchain/verifier.py:378-408` | Under index 0 the legacy lookup gives the hash of the script without separators, under index k that of what follows the k-th; where hashing raises, the number one for SINGLE without an output, or nothing |
| `SighashBlob.SubscriptSplits` | `src/bitcoin_script/blockchain/verifier.py:386-392` | The subscript with index k is what follows the k-th separator |
| `SighashBlob.TaprootBlob` | `src/bitcoin_script/blockchain/verifier.py:320-376` | The loops write one row for the key path, or one for each separator of the tapscript and one before any, leaving out what raises |
| `SighashBlob.TapPositionIsSeparator` | `src/bitcoin_script/blockchain/verifier.py:346-353` | The k-th row commits to the offset of the k-th separator of the tapscript |
| `SighashBlob.TaprootLookup` | `src/bitcoin_script/blockchain/verifier.py:320-376` | Under index 0 the taproot lookup gives the tagged hash of the call with position 0xFFFFFFFF, under index k that of the call with the offset of the k-th separator, for any number of separators |
| `Der.EncodingsAreValid` | `src/bitcoin_script/k_semantics/kdist/script-semantics/script-crypto.k:103-150` | Every canonical signature is accepted and reads back |
| `Der.ValidAreEncodings` | `src/bitcoin_script/k_semantics/kdist/script-semantics/script-crypto.k:103-150` | Every accepted string is the encoding of the signature its length bytes delimit |
| `Der.RecogniserIsExact` | `src/bitcoin_script/k_semantics/kdist/script-semantics/script-crypto.k:103-150` | A string is accepted if and only if it is 30, length, 02, R, 02, S, hash type with R and S non-negative, minimally padded and total length 9 to 73, and then in one way only |
| `Der.MinimalIntegersUnique` | `src/bitcoin_script/k_semantics/kdist/script-semantics/script-crypto.k:131-148` | Two minimally padded integers with the same value are the same bytes |
| `Der.NoTwoEncodings` | `src/bitcoin_script/k_semantics/kdist/script-semantics/script-crypto.k:103-150` | Two accepted strings with the same R, S and hash type are the same string |
| `Der.IntegersRecovered` | `src/bitcoin_script/k_semantics/kdist/script-semantics/script-crypto.k:22-41` | On accepted strings both halves are defined and give back R and S exactly when those are below 2^256 |
| `ChainIndex.FirstSeen` | `src/bitcoin_script/blockchain/verifier.py:524-527` | The child of a hash is the first header scanned that names it, and is never overwritten |
| `ChainIndex.LastPlace` | `src/bitcoin_script/blockchain/verifier.py:528-528` | A block is read from where its last header was seen |
| `ChainIndex.ScanSound` | `src/bitcoin_script/blockchain/verifier.py:524-528` | If a hash determines its header and zero is no block, no two hashes share a child |
| `ChainIndex.NoRevisit` | `src/bitcoin_script/blockchain/verifier.py:538-546` | The walk never comes back to a block |
| `ChainIndex.WalkEnds` | `src/bitcoin_script/blockchain/verifier.py:548-562` | So it has no more steps than there are known blocks |
| `ChainIndex.EndsExactly` | `src/bitcoin_script/blockchain/verifier.py:538-562` | On any index whatever, the walk ends if and only if it never comes back to a block |
| `ChainIndex.ConsistentEnds` | `src/bitcoin_script/blockchain/verifier.py:548-562` | It does end for headers whose hashes do not collide |
| `ChainIndex.WholeIsLinked` | `src/bitcoin_script/blockchain/verifier.py:534-546` | The header at each height names the hash at the height below, genesis the zero hash |
| `ChainIndex.EarlyStopIsSound` | `src/bitcoin_script/blockchain/verifier.py:529-533` | Stopping the scan anywhere gives a prefix of the chain over all headers |
| `ChainIndex.WalkChainLength` | `src/bitcoin_script/blockchain/verifier.py:548-562` | Wherever the walk ends, the loop counts it |
| `ChainIndex.ScanHeaders` | `src/bitcoin_script/blockchain/verifier.py:516-535` | The scan stops at the first look at which the chain exceeds the target, or at the last header |
| `ChainIndex.WalkChain` | `src/bitcoin_script/blockchain/verifier.py:537-546` | The second pass yields consecutive heights from start to end with the hashes of the walk, each from its place in the index; with an end, also where the walk would go round for ever |
| `ChainIndex.LoadedWithEnd` | `src/bitcoin_script/blockchain/verifier.py:510-546` | With an end, every height gets the hash it would get from all headers, however early the scan stopped |
| `ChainIndex.LoadedWithoutEnd` | `src/bitcoin_script/blockchain/verifier.py:510-546` | Without one, the heights are those of a prefix of the chain over all headers that passes the default target or is all of it |
| `ChainIndex.LoadedLater` | `src/bitcoin_script/blockchain/verifier.py:510-533` | Without one, a call that starts later loads no less |
| `ChainIndex.AlwaysLoads` | `src/bitcoin_script/blockchain/verifier.py:501-546` | If the walk over all headers ends, so does every scan and every walk of a call |
| `ChainIndex.LoadChain` | `src/bitcoin_script/blockchain/verifier.py:501-546` | The loader yields the heights from start on of the chain these are about, each block from its place in the index of the headers scanned |
| `ChainFiles.YieldsBlocks` | `src/bitcoin_script/blockchain/verifier.py:541-544` | What is read at these places is the blocks of the chain, height by height |
| `ChainFiles.BlocksArePrefix` | `src/bitcoin_script/blockchain/verifier.py:501-546` | For headers and blocks that a hash determines, the blocks of every call are the first of one chain |
| `ChainFiles.PartBlocks` | `src/bitcoin_script/blockchain/verifier.py:501-546` | Files that grow keep the chain they had |
| `ChainFiles.ReachWithEnd` | `src/bitcoin_script/blockchain/verifier.py:510-546` | With an end, a call reaches the same height wherever it starts |
| `Utxo.UTXOSet.constructor` | `src/bitcoin_script/blockchain/utxo.py:17-39` | A fresh database has no coins and height -1, a stored one what was committed |
| `Utxo.UTXOSet.Add` | `src/bitcoin_script/blockchain/utxo.py:47-64` | A duplicate raises and changes nothing unless overwriting is allowed |
| `Utxo.UTXOSet.Spend` | `src/bitcoin_script/blockchain/utxo.py:66-81` | The coin comes out if there is one; it is gone after |
| `Utxo.UTXOSet.SetCheckpointHeight` | `src/bitcoin_script/blockchain/utxo.py:107-109` | The height changes in the working copy only |
| `Utxo.UTXOSet.Commit` | `src/bitcoin_script/blockchain/utxo.py:92-94` | What survives a crash is now the working copy |
| `Utxo.UTXOSet.Reopen` | `src/bitcoin_script/blockchain/utxo.py:17-39` | After a crash the working copy is what was committed |
| `Ledger.FoldIsApply` | `src/bitcoin_script/blockchain/verifier.py:576-699` | Applying blocks one by one is applying all their operations in order |
| `Ledger.LastDecides` | `src/bitcoin_script/blockchain/verifier.py:676-696` | The last operation on an outpoint decides what is there |
| `Ledger.History` | `src/bitcoin_script/blockchain/utxo.py:47-90` | After any number of completed blocks an outpoint holds a coin if and only if the last event on it created that coin |
| `Ledger.Conservation` | `src/bitcoin_script/blockchain/verifier.py:676-696` | The total changes by what is created less what is spent or replaced |
| `Ledger.BlockConservation` | `src/bitcoin_script/blockchain/verifier.py:576-699` | A completed block adds the sum of its outputs and takes, transaction by transaction, the total of the distinct outpoints present and, at the two BIP 30 heights only, what it replaces |
| `Ledger.ApplyMerges` | `src/bitcoin_script/blockchain/utxo.py:47-90` | The same operations on two tables leave the same table if and only if the two agree on every outpoint that no operation touches |
| `Ledger.FoldOfPrefix` | `src/bitcoin_script/blockchain/verifier.py:576-699` | A longer chain folds its first blocks to the same coins |
| `Ledger.SpendsEachOnce` | `src/bitcoin_script/blockchain/verifier.py:676-684` | Listing an outpoint twice, or one that is not there, spends no more: what is taken is the total of the distinct outpoints present |
| `Ledger.TxEffect` | `src/bitcoin_script/blockchain/verifier.py:580-696` | A transaction completes if and only if, the coinbase aside, its inputs can be written and, heights 91842 and 91880 aside, none of its outputs is there once its inputs are gone; then its inputs are gone, its outputs are there and nothing else has changed |
| `Ledger.SameBlockSpend` | `src/bitcoin_script/blockchain/verifier.py:582-696` | An output created earlier in the block is found by a later transaction, unless one in between spent it or has the same id |
| `ChainVerifier.Verifier.LookUp` | `src/bitcoin_script/blockchain/verifier.py:587-592` | All coins are looked up before any input is checked |
| `ChainVerifier.Verifier.ProcessInputs` | `src/bitcoin_script/blockchain/verifier.py:582-684` | Lookup, blob of prevouts, checks and spends in that order; nothing is spent if anything raises |
| `ChainVerifier.Verifier.BuildTasks` | `src/bitcoin_script/blockchain/verifier.py:602-649` | One task for every input whose coin is there, or an exception if the witness or the signature hashes of one of them cannot be written |
| `ChainVerifier.Verifier.CheckInputs` | `src/bitcoin_script/blockchain/verifier.py:602-672` | One message for every input whose coin is missing or whose check fails, whichever of the two loops adds it; an exception exactly if a task cannot be built |
| `ChainVerifier.Verifier.SpendInputs` | `src/bitcoin_script/blockchain/verifier.py:676-684` | Every input is taken in order and a missing one is skipped |
| `ChainVerifier.Verifier.AddOutputs` | `src/bitcoin_script/blockchain/verifier.py:686-696` | Outputs are added in order up to the first that raises, and those before it stay |
| `ChainVerifier.Verifier.ProcessTx` | `src/bitcoin_script/blockchain/verifier.py:582-696` | One transaction: coins, errors and the exception case |
| `ChainVerifier.Verifier.VerifyBlockInner` | `src/bitcoin_script/blockchain/verifier.py:576-707` | One block is committed with its height whether or not it has errors; an exception commits nothing |
| `ChainVerifier.Verifier.VerifyVisits` | `src/bitcoin_script/blockchain/verifier.py:466-490` | The loop over the blocks yielded leaves tables and outcome as the value-level run over the chain from that height does |
| `ChainVerifier.Verifier.VerifyChain` | `src/bitcoin_script/blockchain/verifier.py:439-499` | A run resumes after the checkpoint, loads the chain for that height from the files, ends at the first block with errors, and leaves both tables as the value-level run does |
| `ChainVerifier.RunCommitsFold` | `src/bitcoin_script/blockchain/verifier.py:454-490` | However a run ends, what is committed is the fold of blocks 0 to the checkpoint |
| `ChainVerifier.SkippingExactly` | `src/bitcoin_script/blockchain/verifier.py:454-490` | A run that starts beyond the checkpoint, however it ends, leaves the fold if and only if it commits nothing, or both folds exist and every outpoint that its blocks leave alone has the same coin, or none, in the old table and in the fold up to its start |
| `ChainVerifier.SkippingBreaksFold` | `src/bitcoin_script/blockchain/verifier.py:454-455` | An instance where it does not: the coin of the skipped block is missing |
| `ChainVerifier.Perform` | `src/bitcoin_script/blockchain/utxo.py:47-109` | The methods of the table object do what each event of the machine with crashes says, a crash being a reopened database |
| `Checks.ErrorsAreFailedChecks` | `src/bitcoin_script/blockchain/verifier.py:580-675` | A block that completes has one error for every input whose coin is not there after the transactions before or whose verdict is false, and so none if and only if all checks hold |
| `Checks.RunStops` | `src/bitcoin_script/blockchain/verifier.py:466-490` | A run goes through the blocks that pass and ends at the first that does not: committed with the number of its failed checks if it completes, raised otherwise |
| `Checks.DoneExactly` | `src/bitcoin_script/blockchain/verifier.py:466-490` | A run ends without errors if and only if every block completes and all its checks hold |
| `Checks.FailedExactly` | `src/bitcoin_script/blockchain/verifier.py:473-490` | A run reports n errors if and only if the first block that does not pass completes with n failed checks |
| `Checks.CallDoneExactly` | `src/bitcoin_script/blockchain/verifier.py:454-490` | A call with an end ends without errors if and only if every block after the checkpoint, from the start to the end, completes with all checks holding |
| `Restarts.OutcomeIsRun` | `src/bitcoin_script/blockchain/verifier.py:454-490` | Every call of the verifier is a run over the one chain of all headers, up to where the call happens to have loaded it |
| `Restarts.RestartsCommitFold` | `src/bitcoin_script/blockchain/verifier.py:454-490` | Any number of calls, each on files that may have grown and a database opened afresh, stopped in any way: what is committed is always the fold of the one chain |
| `Restarts.SplitRun` | `src/bitcoin_script/blockchain/verifier.py:454-490` | With an end, a run that is stopped without errors and resumed does exactly what one uninterrupted run does: same tables, same outcome |
| `Restarts.SplitRunExactly` | `src/bitcoin_script/blockchain/verifier.py:454-510` | With an end or without, it does so if and only if the resumed call loads a chain of the same length, or an error ends the uninterrupted run |
| `Restarts.ResumedLoadsMore` | `src/bitcoin_script/blockchain/verifier.py:466-533` | Without an end the resumed call loads the same blocks and perhaps more |
| `RestartInstance.ResumedGetsFurther` | `src/bitcoin_script/blockchain/verifier.py:510-533` | Files on which it loads more: one run stops at the first look at the chain, a resumed one verifies every block |
| `ChainVerifier.CommittedIsFold` | `src/bitcoin_script/blockchain/verifier.py:582-699` | Every operation and every crash keeps the invariant behind that |
| `ChainVerifier.FreshIsSound` | `src/bitcoin_script/blockchain/verifier.py:454-490` | In every interleaving of operations and crashes from a fresh database the committed coins are the fold of blocks 0 to the checkpoint |
| `ChainVerifier.BlockCompletes` | `src/bitcoin_script/blockchain/verifier.py:576-699` | From any committed state some sequence of operations without a crash commits the next block as the run does |

## Left out

- Engine.ScriptEngine.RunScript: on a failing run only the error is stated, not the stack left behind; every caller in the source discards it.
- Engine.ScriptEngine.ExecuteLive: the same for one opcode.
- Engine.ScriptEngine.ExecuteItem: the same for one item.
- Engine.ScriptEngine.Execute: the same for its run.
- SighashHooks.FieldHooksAgree: buffers are at most 2^40 - 1 bytes, the longest string the runtime can represent, offsets and counts are not negative, and no length field is so near 2^64 that adding it to an address wraps, which C leaves undefined.
- SighashHooks.VinsBlockAgrees: exact under the same assumption on buffers, counts and length fields.
- SighashHooks.VoutsBlockAgrees: exact under the same assumption.
- SighashHooks.LegacyVinsBlockStream: under the same assumption on length fields, as are the other six hooks.
- TaprootMessage.Message: integers are in the ranges that the struct format accepts; values outside raise in the source before anything is built.
- TaprootMessage.TaprootSighash: the same ranges.
- SighashBlob.LegacyBlob: starts from the chosen subscript and hash types, and of the exceptions of `SignatureHash` only the caught ones are represented.
- SighashBlob.TaprootBlob: starts from the chosen hash types, annex, tapscript and leaf hash.
- ChainIndex.LoadChain: reading a place and deserializing what stands there is a function; files that are missing or end early are not modelled.
- ChainIndex.WalkChainLength: requires that the walk ends, since a Dafny loop must; `EndsExactly` says when it does, and where it does not the loop of the source does not end either.
- ChainIndex.ScanHeaders: requires that the walks it counts end, for the same reason; `AlwaysLoads` derives it.
- ChainIndex.WalkChain: without an end, requires that the walk ends, for the same reason.
- ChainVerifier.Verifier.VerifyChain: counters, timing, callbacks and the worker pool are left out, and the lazy loading of blocks, which nothing in the loop can change; it requires that the load comes to an end.
- Going on with the same connection after an exception inside a block: an exception leaves the working copy half-way, and the machine with crashes only leaves that state by a restart.
- `_compute_sighash_blob` up to the choice of subscript and hash types: witness detection, the scan for hash types and annex handling.
- The walk in the benchmark extractor: the same loops without start, cutoff or checkpoint.
- BIP 143 and legacy preimages in K, FindAndDelete, public-key formats, the low-S rule and flag checks.
- `encode_witness_blob`, `classify_script`, the assembler's tokens, era tables and script templates: branch-level facts.
- Command line, RPC download, esplora client, benchmark reports, SQLite internals and logging.
- `CTransaction` and `CBlock` deserialization: libraries, not part of this model; the wire layout is the one the C++ file documents.
