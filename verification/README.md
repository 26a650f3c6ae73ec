# A model of BitSNARK

BitSNARK settles a zero-knowledge proof on Bitcoin by fraud proof. A Groth16 verifier is recorded as a
straight-line program on registers, its registers are re-allocated, a dispute over its trace is narrowed ten ways a
round, and the one step left in dispute is checked again in Bitcoin Script. This project models the algorithms of
that chain in Dafny and proves what they promise.

| files | what they model |
|---|---|
| `Runner`, `FieldLaws`, `RegAlloc`, `RegAllocMeaning`, `RegOptimizer`, `SavedSuccess` | the register program, its runner and what its codes compute together, the register allocator, and where a saved program keeps its success |
| `Decasector`, `Dissection` | the ten-way search over the trace, against any prover |
| `ScriptMachine`, `Emitter`, `ScriptMultiply`, `ScriptNibbles` | a plain Bitcoin Script machine and the emitter that simulates while it emits |
| `Digits`, `HostKaratsuba`, `BtcArithmetic` | base-8 numbers: on the host, and as opcodes |
| `Winternitz`, `WinternitzSigning`, `WinternitzScript`, `WinternitzList` | one-time signatures: on the host, in scripts that hash up to the key, and in those that pick from a list |
| `Blake3Hasher`, `Blake3Words`, `NibbleBlake3` | BLAKE3: the incremental hasher, and the compression as opcodes on 4-bit digits |
| `Limbs32`, `Vm32`, `Sha256` | the 32-bit machine: 256-bit modular arithmetic and SHA-256 |
| `TapTree` | script trees: streaming and level by level |
| `TransactionGraph`, `TransactionRuns`, `Amounts`, `ValueConservation` | the transaction templates, all runs over them, and their amounts |

`dafny verify dfyconfig.toml` checks everything.

How the main models are built:

- Objects whose methods change their fields are classes (`VM`, `Runner`, `Decasector`, `Bitcoin`, `BtcArithmetic`,
  `BLAKE3`, `ChunkState`, `Hasher`, `Compressor`, `AmountSetter`, `Vm`, `SHA256`); each method is proved against a
  function or predicate on values, and the lemmas are about those.
- The emitter keeps the opcodes, the stack of items and their ids. The simulated values and a Script machine that runs
  the opcodes on inputs of its own are ghost state, which the code that emits cannot read: so the opcodes depend on
  neither, and a contract about the machine's values speaks of every input. `InSync`, which every method keeps, says
  that the simulation shows exactly what the machine holds and whether it has failed.
- The 32-bit recorder keeps its values and inputs as ghost state, too, so the program it records is one for all
  inputs. `Valid` says that replaying that program from the constants and inputs leaves what the recorder holds.
- Tables are loaded once and pinned: from then on the model does not drop the items at or below them. This is a
  restriction of the proofs, not of the opcodes.
- The instructions of the register program are uninterpreted where the pass does not look at them: `KeptExactly` lets
  every line mean something else. With one meaning for all lines a clobbered register may by chance hold the right
  value, as `OneMeaningTooFew` shows, so the condition would not be exact.
- Hash functions and the BLAKE3 compression of the hasher are parameters. Signatures need keys that do not recur on
  their own chains, which is the assumption `NoCycle` or its like in each statement.
- Exact rationals stand for the decasector's rounded marks, and the integer logarithm for the floating-point ones.

## Findings

Where the code does not do what one would expect, the exact condition is proved:

- The allocator takes a recorded start of 0 for an absent one. Every recorded program writes its success register on
  line 0 and again later, so its recorded interval starts at the first assertion. The meaning survives exactly under
  `RecordedKeptExactly`; `LineZeroConditionNeeded` is a program that loses it, `ShortKept` one that does not.
- Saving writes down the index the success register had before the pass, and the runner reads success there. That
  index stays right exactly when every witness is mentioned at the first assertion or later (`SavedIndexByLast`),
  which holds of every program that keeps its meaning (`KeptKeepsIndex`); `SavedIndexWrong` is a program that reports
  success in place of failure.
- The moves that clear the registers before saving except the success register by comparing objects. The pass has
  replaced every register that is not a constant by a new object, so nothing is excepted and, by `ClearedSuccess`,
  the register at the saved index, if there is one, is zero at the end of every run; success would be kept
  exactly if that register were excepted.
- The decoder of the refutation scripts picks an item at a depth the witness gives and does not check that the depth
  lies among the sixteen hashes. By `ListAgreesWithHost` and `SignedNumberScript` the host accepts exactly the
  witnesses that the script accepts in which every digit is one byte below 16; `FarDigitAccepted` is a witness the
  script accepts and the host does not, and regrouping reads its digit 213 as 15 (`FarDigitLeaves`).
- Without the locked funds no payout can be published while a state of the prover's is open
  (`NoPayoutWithoutFunds`); in every other state after the proof some payout can (`Progress`).
- The two tree classes agree exactly on the leaf counts of `SameRootExactly`: 3, 5 and 7 for instance, but not 6.
- The emitted subtraction writes the final borrow over the top digit and leaves one item behind; `SubtractExact` says
  when the digits are right, which is so in both places where Karatsuba uses it.
- Regrouping nibbles leaves one or two zeros on the alt stack unless their number is one more than a multiple of
  three. A 256-bit number has 64, which is.
- The 32-bit recorder clears its success register on a failed assertion; `32_vm/vm/runner.ts` lines 129 to 131 set it
  anew on each one, so a later assertion that passes undoes a failure. A recorded multiplication is checked in full by
  the first rule, and in its top limb only by the second (`MulModProgram`, `WrongProductAccepted`).
- An amount of zero counts as unset: `PassesExactly`.
- The introduction in the repository's own README, line 57, says of the challenge what holds of the uncontested
  proof; its line 59 and the templates have it right. `TimeoutClaimExactly` says what the longer timeout depends on.
- The middle loop of the fast zeros never runs, and the last digit of the host's Karatsuba needs no normalising.

## Model

| member | source | states |
|---|---|---|
| `RunnerModel.Runner.ExecuteOne` | src/generator/ec_vm/vm/runner.ts:61-135 | one line: throws exactly when an operand is missing, otherwise stores the code's result in the target, which it creates if it is missing; past the end only the counter moves |
| `RunnerModel.Runner.Execute` | src/generator/ec_vm/vm/runner.ts:137-142 | runs on from any line to line `stop` inclusive, so the state at line L is the one after L + 1 instructions; it throws exactly when some line on the way does |
| `RunnerModel.RunGoesOn` | src/generator/ec_vm/vm/runner.ts:137-142 | a run that stops at a line and goes on later is one run |
| `FieldLaws.PrimeOfFamily` | src/generator/common/prime.ts:1-1 | the prime is 36u^4 + 36u^3 + 24u^2 + 6u + 1 for the parameter of the pairing curve |
| `FieldLaws.SubThenAdd` | src/generator/ec_vm/vm/runner.ts:82-118 | ADDMOD after SUBMOD by the same operand gives the first operand back |
| `FieldLaws.AddTwice` | src/generator/ec_vm/vm/runner.ts:82-105 | ADDMOD of a number with itself is MULMOD by two |
| `FieldLaws.DivThenMul` | src/generator/ec_vm/vm/runner.ts:102-122 | MULMOD after DIVMOD by the same operand gives the dividend back, if the inverse inverts it |
| `FieldLaws.MulOfSum` | src/generator/ec_vm/vm/runner.ts:82-105 | MULMOD of an ADDMOD is the ADDMOD of two MULMODs |
| `FieldLaws.BothBits` | src/generator/ec_vm/vm/runner.ts:86-93 | what ANDBIT and ANDNOTBIT leave adds up to the second operand |
| `FieldLaws.BitsMakeNumber` | src/generator/ec_vm/vm/runner.ts:86-89 | the bits that ANDBIT takes, each with its weight, make up the number modulo 2^n, for every n |
| `FieldLaws.EqualIsZeroDifference` | src/generator/ec_vm/vm/runner.ts:97-118 | EQUAL is NOT of SUBMOD: one exactly on equal numbers |
| `FieldLaws.AndIsProduct` | src/generator/ec_vm/vm/runner.ts:102-112 | on truth values AND is MULMOD |
| `FieldLaws.OrAndSum` | src/generator/ec_vm/vm/runner.ts:82-112 | on truth values OR and AND add up to ADDMOD |
| `FieldLaws.NotTwice` | src/generator/ec_vm/vm/runner.ts:113-115 | NOT is one exactly on zero, and twice it gives the truth of a number |
| `FieldLaws.OnlyTruth` | src/generator/ec_vm/vm/runner.ts:106-112 | AND and OR see only whether their operands are zero |
| `FieldLaws.AssertedEqual` | src/generator/ec_vm/vm/runner.ts:97-127 | EQUAL followed by ASSERTONE keeps the success register exactly when the two numbers are equal |
| `FieldLaws.AssertedCopy` | src/generator/ec_vm/vm/runner.ts:94-132 | so does ASSERTZERO of the difference of a copy |
| `RegAlloc.StoredFirstExact` | src/generator/ec_vm/vm/reg-optimizer.ts:55-58 | the recorded start is the true first mention exactly when the register is not mentioned on line 0 and again later |
| `RegAlloc.OverlapMeansCommonLine` | src/generator/ec_vm/vm/reg-optimizer.ts:15-22 | two recorded intervals overlap exactly when some line lies in both |
| `RegAlloc.GroupsPartition` | src/generator/ec_vm/vm/reg-optimizer.ts:105-122 | the groups partition the registers offered, and the intervals of each group are pairwise disjoint |
| `RegAlloc.GroupsFirstFit` | src/generator/ec_vm/vm/reg-optimizer.ts:105-122 | a register in a later group overlaps a member of every earlier group that comes before it |
| `RegAlloc.GroupsAgainstDepth` | src/generator/ec_vm/vm/reg-optimizer.ts:84-122 | the number of groups is at least the deepest count, and equal to it when all registers are mentioned and come in order of their start |
| `RegAllocMeaning.InputsStayPut` | src/generator/ec_vm/vm/reg-optimizer.ts:80-146 | constants keep their index and the i-th witness heads group i, so both stay where the runner loads them |
| `RegAllocMeaning.SameSlotDisjoint` | src/generator/ec_vm/vm/reg-optimizer.ts:124-146 | two registers that get one slot have disjoint recorded intervals |
| `RegAllocMeaning.LockstepInvariant` | src/generator/ec_vm/vm/reg-optimizer.ts:148-152 | under any assignment of slots that clobbers nothing still needed, both programs run in lockstep without throwing and agree on every register still needed |
| `RegAllocMeaning.KeptExactly` | src/generator/ec_vm/vm/reg-optimizer.ts:148-152 | for any assignment of slots that keeps constants and witness in place: every line reads and writes the same values in both programs, whatever the lines mean and on all inputs, if and only if no line writes the slot of another register that is read later |
| `RegAllocMeaning.ClobbersEarly` | src/generator/ec_vm/vm/reg-optimizer.ts:55-58 | in the slots the pass assigns, only line 0 and the lines before the late start of the register it wrote can clobber anything |
| `RegAllocMeaning.MeaningKeptExactly` | src/generator/ec_vm/vm/reg-optimizer.ts:48-152 | register allocation preserves meaning if and only if line 0 takes no slot of a register read later and nothing writes the slot of the register it set before that one's recorded start while it is needed |
| `RegAllocMeaning.AllocationPreservesMeaning` | src/generator/ec_vm/vm/reg-optimizer.ts:48-152 | the same for the runner's own operations: both runs succeed and every operand and target of every line, assertion targets included, holds in its slot the value it holds in the original |
| `RegAllocMeaning.LineZeroOnceSuffices` | src/generator/ec_vm/vm/reg-optimizer.ts:55-58 | the start is safe when no register that line 0 mentions, but for constants and witness, is mentioned again |
| `RegAllocMeaning.RecordedKeptExactly` | src/generator/ec_vm/vm/reg-optimizer.ts:48-152 | for a program of the recorded shape: its meaning is kept if and only if no witness that shares the success register's slot is read and no line before the first assertion writes a register that does |
| `RegAllocMeaning.LineZeroConditionNeeded` | src/generator/ec_vm/vm/reg-optimizer.ts:57-57 | a recorded three-line program whose success is 0 on input 5 and 1 after allocation |
| `RegAllocMeaning.ShortKept` | src/generator/ec_vm/vm/reg-optimizer.ts:48-152 | a recorded program that mentions its success register on line 0 and later, and keeps its meaning |
| `SavedSuccess.SavedIndexExactly` | src/generator/ec_vm/vm/vm.ts:210-226 | the saved index, which the pass does not update, names the slot of the success register if and only if that register overlaps every witness |
| `SavedSuccess.SavedIndexByLast` | src/generator/ec_vm/vm/vm.ts:210-226 | for a recorded program: if and only if every witness is mentioned on the line of the first assertion or later |
| `SavedSuccess.KeptKeepsIndex` | src/generator/ec_vm/vm/vm.ts:210-226 | a recorded program, with second operands on binary codes only, that keeps its meaning keeps that index, so no witness shares the slot of its success register |
| `SavedSuccess.SuccessAfterAssertion` | src/generator/ec_vm/vm/runner.ts:159-161 | such a program, allocated and reloaded, reports after every assertion the success that the original reports, on all inputs |
| `SavedSuccess.SuccessAtEndExactly` | src/generator/ec_vm/vm/runner.ts:159-161 | its success register holds the original value at the end, whatever the lines mean, if and only if no line after the last assertion writes its slot |
| `SavedSuccess.SavedIndexWrong` | src/generator/ec_vm/vm/vm.ts:218-218 | a recorded program that fails on input 5 and, allocated and reloaded, reports success |
| `SavedSuccess.ClearedSuccess` | src/agent/setup/groth16-verify.ts:51-57 | after the clearing moves the reported success is as before if and only if they except the register at the saved index or it was failure anyway; when they except none it is failure |
| `RegOptimizer.VM.Check` | src/generator/ec_vm/vm/reg-optimizer.ts:24-46 | the check's outcome is the first complaint in the order of the loops |
| `RegOptimizer.CheckAcceptsExactly` | src/generator/ec_vm/vm/reg-optimizer.ts:24-46 | the check passes exactly the programs whose operands are all defined before they are read |
| `RegOptimizer.IsNotInSieve` | src/generator/ec_vm/vm/reg-optimizer.ts:15-18 | true exactly when no line of the interval is marked |
| `RegOptimizer.MarkSieve` | src/generator/ec_vm/vm/reg-optimizer.ts:20-22 | marks exactly the lines of the interval |
| `RegOptimizer.VM.FindIntervals` | src/generator/ec_vm/vm/reg-optimizer.ts:55-69 | after the scan every register holds its recorded start and last use |
| `RegOptimizer.VM.FindDeepest` | src/generator/ec_vm/vm/reg-optimizer.ts:86-99 | the largest number of recorded intervals over one line |
| `RegOptimizer.VM.BuildGroup` | src/generator/ec_vm/vm/reg-optimizer.ts:107-121 | one pass with a sieve splits the registers as first fit on overlap does |
| `RegOptimizer.VM.Optimize` | src/generator/ec_vm/vm/reg-optimizer.ts:48-159 | the whole pass: on a complaint nothing changes, otherwise the instructions are rewritten by the allocation, the registers are those of the groups, and the closing check passes |
| `RegOptimizer.ClosingCheckPasses` | src/generator/ec_vm/vm/reg-optimizer.ts:154-156 | the check on the rewritten program cannot fail |
| `Decasection.Decasector.constructor` | src/agent/setup/decasector.ts:50-93 | every line from 0 to total gets exactly one commitment, at the round and selection where the search will look for it; its line is the one nearest to that tenth |
| `Decasection.MarkNearest` | src/agent/setup/decasector.ts:57-64 | the mark is the line nearest to a tenth, the upper one of two, and no other line is |
| `Decasection.RangeNearest` | src/agent/setup/decasector.ts:105-116 | both ends of a sub-range are the lines nearest to the tenths of the range it is taken from |
| `Decasection.SiblingsTile` | src/agent/setup/decasector.ts:105-116 | the ten sub-ranges of a range tile it |
| `Decasection.RangeShrinks` | src/agent/setup/decasector.ts:105-116 | after n selections the range lies in the trace and has at most 10^(iterations - n) lines, so at most one after all |
| `Decasection.Decasector.GetRangeForSelectionPath` | src/agent/setup/decasector.ts:105-116 | the loop computes the range of the path, whose ends are the lines nearest to tenths of the range before |
| `Decasection.Decasector.GetLinesForSelectionPath` | src/agent/setup/decasector.ts:95-103 | the nine lines nearest to the tenths of that range |
| `Dissection.CommitmentByDigits` | src/agent/setup/decasector.ts:57-93 | for 10^k lines: the round of a line is k minus its trailing decimal zeros, the selection its last nonzero digit less one |
| `Dissection.LineByDigits` | src/agent/setup/decasector.ts:95-135 | for 10^k lines: the line of a prefix and a selection is spelled by their digits |
| `Decasection.Decasector.CalculateStates` | src/agent/protocol-logic/states.ts:6-21 | the nine states published for a path are those of its nine lines, the nearest to the tenths of its range |
| `Dissection.FindErrorState` | src/agent/protocol-logic/states.ts:35-45 | the first position where the two lists differ, or their length |
| `Dissection.DisputeInvariant` | src/agent/protocol-logic/states.ts:35-45 | against any adaptive prover every round keeps: the claims agree at the left end and differ at the right end of a range that shrinks tenfold |
| `Dissection.DissectionEnds` | src/agent/setup/decasector.ts:105-136 | for any number of lines the search ends on two neighbouring lines, or on one line with two contradicting claims |
| `Dissection.DissectionIsolatesOneStep` | src/agent/setup/decasector.ts:95-136 | for 10^k lines it ends with right = left + 1, agreeing at left and differing at right |
| `Dissection.DisputedStepIsWrong` | src/agent/protocol-logic/states.ts:35-45 | joined with the runner: the claim at right is not one execution step from the claim at left |
| `Emitter.Bitcoin.constructor` | src/generator/btc_vm/bitcoin.ts:105-110 | a new emitter with nothing emitted; the machine's inputs need not be the simulated ones |
| `Emitter.Bitcoin.Pick` | src/generator/btc_vm/bitcoin.ts:136-140 | the machine copies the item the depth on top names, and the simulation stays in step |
| `Emitter.Bitcoin.Roll` | src/generator/btc_vm/bitcoin.ts:130-134 | the machine moves that item to the top |
| `Emitter.Bitcoin.PickItem` | src/generator/btc_vm/bitcoin.ts:446-454 | puts a copy of an item on top wherever it lies |
| `Emitter.Bitcoin.DropAll` | src/generator/btc_vm/bitcoin.ts:456-471 | takes exactly the given items off, and changes no value |
| `Emitter.Bitcoin.ReplaceWithTop` | src/generator/btc_vm/bitcoin.ts:473-478 | stores the top in an item; no other item changes |
| `Emitter.Bitcoin.TableFetchInStack` | src/generator/btc_vm/bitcoin.ts:489-497 | replaces an index below the table's length by that table entry |
| `Emitter.Bitcoin.NewNibblesFast` | src/generator/btc_vm/bitcoin.ts:73-98 | exactly `count` new zeros, whatever the opcodes that make them |
| `Emitter.Bitcoin.BorrowIf` | src/agent/final-step/btc-arithmetic.ts:104-145 | the IF block that adds 8 on a borrow, with the simulated digit put right afterwards |
| `Emitter.Bitcoin.SaveIf` | src/generator/btc_vm/bitcoin.ts:697-709 | the IF block that saves an index on the alt stack exactly when the flag is set |
| `Emitter.Bitcoin.ReduceIf` | src/agent/final-step/blake-3-4u.ts:126-148 | the IF block that takes 16 off, with the simulated digit put right afterwards |
| `Emitter.Bitcoin.SubtractIf` | src/generator/btc_vm/bitcoin.ts:1427-1433 | the IF block that takes the weight of a bit off, with the simulated number put back |
| `Emitter.Bitcoin.PickAny` | src/generator/btc_vm/bitcoin.ts:136-140 | the same for any depth: the machine fails exactly when it leads below the stack |
| `Emitter.Bitcoin.NumEqualVerify` | src/generator/btc_vm/bitcoin.ts:290-295 | the machine fails exactly when the two numbers on top differ, and so does the simulation |
| `Emitter.Bitcoin.Verify` | src/generator/btc_vm/bitcoin.ts:362-366 | the machine fails exactly when the top is zero, and so does the simulation |
| `ScriptMultiply.Mul` | src/generator/btc_vm/bitcoin.ts:407-435 | the top times n, for n from 2 to 256, with both stacks otherwise as they were |
| `ScriptMultiply.MultiplesAddUp` | src/generator/btc_vm/bitcoin.ts:407-435 | the doublings kept for the one bits of n add up to n times the number |
| `ScriptNibbles.Nibbles4To3` | src/generator/btc_vm/bitcoin.ts:1409-1452 | the 3-bit digits stand for the number of the 4-bit digits, of which one above 15 counts as 15; the alt stack is as before just when the number of nibbles is one more than a multiple of three |
| `ScriptNibbles.SameNumber` | src/generator/btc_vm/bitcoin.ts:1409-1452 | regrouping the bits of a hexadecimal number by three does not change the number |
| `ScriptNibbles.SignedNumberScript` | src/agent/final-step/refutation.ts:125-129 | the part of the script that decodes a number with its list of digits, drops the witness and regroups, on a Script machine: for every witness whether it succeeds and which octal digits it leaves; the host accepts exactly when it succeeds and every digit is one byte below 16, and then reads that number |
| `ScriptNibbles.FarDigitLeaves` | src/agent/final-step/refutation.ts:125-129 | on a witness the host refuses the script leaves the digits of 15 |
| `BtcArithmeticModel.BtcArithmetic.Add` | src/agent/final-step/btc-arithmetic.ts:73-102 | the new digits are the sum; the alt stack is restored and every table index is below 64 |
| `BtcArithmeticModel.BtcArithmetic.SubtractFromA` | src/agent/final-step/btc-arithmetic.ts:104-145 | the digits of `a` below the top, the digit left behind and the final borrow in the top place spell the difference; one item stays on the stack |
| `BtcArithmeticModel.SubtractExact` | src/agent/final-step/btc-arithmetic.ts:104-145 | the subtraction is right if and only if the difference is not negative and has no top digit |
| `BtcArithmeticModel.BtcArithmetic.NaiiveMult` | src/agent/final-step/btc-arithmetic.ts:147-173 | 2n digits whose number is the product |
| `BtcArithmeticModel.BtcArithmetic.KaratsubaMult` | src/agent/final-step/btc-arithmetic.ts:175-237 | at any depth: 2n digits whose number is the product, the alt stack restored, every table index in range |
| `BtcArithmeticModel.MultiplicationScript` | src/agent/final-step/btc-arithmetic.ts:175-237 | the whole script, run on a Script machine with any digits, succeeds and leaves the digits of the product; its opcodes depend on the size and the depth only |
| `Digits.Halves` | src/agent/final-step/karatsuba.ts:104-145 | the identity behind the split: the middle term is not negative and the three shifted terms make up the product |
| `HostKaratsuba.Subtract` | src/agent/final-step/karatsuba.ts:65-82 | throws exactly when the difference is negative |
| `HostKaratsuba.NaiiveMult` | src/agent/final-step/karatsuba.ts:84-102 | throws exactly on different lengths, otherwise the octal digits of the product |
| `HostKaratsuba.KaratsubaMult` | src/agent/final-step/karatsuba.ts:104-145 | for digit lists of one length no step throws and the octal digits, the last included, are those of the product |
| `Blake3Hasher.ChunkState.Update` | src/agent/final-step/blake3.reference.py:200-222 | the chunk so far is the bytes fed so far, in any split |
| `Blake3Hasher.LeftSizeIs` | src/agent/final-step/blake3.reference.py:298-310 | the left subtree takes the largest power of two below the number of chunks |
| `Blake3Hasher.SubtreePrefix` | src/agent/final-step/blake3.reference.py:298-310 | a full subtree does not depend on later input |
| `Blake3Hasher.SubtreeShape` | src/agent/final-step/blake3.reference.py:235-256 | the hash of a stretch of chunks is the value of a left-balanced tree whose leaves, read from left to right, are those chunks in order |
| `Blake3Hasher.Hasher.AddChunkChainingValue` | src/agent/final-step/blake3.reference.py:298-310 | merging while the count is even leaves the roots of the perfect subtrees of the new chunk count |
| `Blake3Hasher.PeaksFold` | src/agent/final-step/blake3.reference.py:329-343 | folding those roots onto the last subtree gives the left-balanced tree |
| `Blake3Hasher.Hasher.Update` | src/agent/final-step/blake3.reference.py:312-327 | the state stands for the concatenation of all input |
| `Blake3Hasher.Hasher.SameInputSameState` | src/agent/final-step/blake3.reference.py:312-327 | any two splits of one input lead to the same state |
| `Blake3Hasher.Hasher.Finalize` | src/agent/final-step/blake3.reference.py:329-343 | the bytes of the extendable output of the recursive tree's root |
| `Blake3Hasher.RootOutputBytes` | src/agent/final-step/blake3.reference.py:154-172 | byte j of the output stream, across blocks and words |
| `Blake3Hasher.NewDeriveKey` | src/agent/final-step/blake3.reference.py:287-296 | the key of the hasher is the hash of the context in the context mode |
| `TransactionGraph.MakeProtocolSteps` | src/agent/common/templates.ts:260-330 | the loop pushes the state, select and timeout templates of every round in order |
| `TransactionGraph.AssertOrder` | src/agent/common/templates.ts:482-493 | accepts exactly the lists in which every input names an earlier template |
| `TransactionGraph.GraphInOrder` | src/agent/common/templates.ts:482-493 | the protocol's own templates are in that order for any number of rounds |
| `TransactionGraph.InputKnown` | src/agent/common/templates.ts:17-440 | every input of the graph refers to an existing output and spending condition |
| `TransactionRuns.AtMostOnePayout` | src/agent/common/templates.ts:17-440 | in every run at most one payout is published |
| `TransactionRuns.ChallengeExcludesUncontested` | src/agent/common/templates.ts:17-440 | CHALLENGE and PROOF_UNCONTESTED are never both published |
| `TransactionRuns.LockedFundsFollowPayout` | src/agent/common/templates.ts:17-440 | the locked funds are spent exactly when a payout to the prover is published |
| `TransactionRuns.VerifierPayoutLocksFunds` | src/agent/common/templates.ts:17-440 | after a payout to the verifier the locked funds are never spent |
| `TransactionRuns.OneStakeCarrier` | src/agent/common/templates.ts:17-440 | until a payout exactly one unspent output carries the stake |
| `TransactionRuns.NoCarrierAfterPayout` | src/agent/common/templates.ts:17-440 | after a payout no unspent output carries it |
| `TransactionRuns.Progress` | src/agent/common/templates.ts:17-440 | from every state after PROOF without a payout, some payout can be published once its timelock passes, if LOCKED_FUNDS is published or no state of the prover's is open |
| `TransactionRuns.NoPayoutWithoutFunds` | src/agent/common/templates.ts:17-440 | while a state of the prover's is open and LOCKED_FUNDS is not published, no payout can be published |
| `TransactionRuns.PayoutExactly` | src/agent/common/templates.ts:58-435 | in every run, for each of the six payouts: it can be published exactly when the transaction it takes the stake from is as old as that timelock in `cfg` asks and not answered; one to the prover needs LOCKED_FUNDS, too, and PROOF_UNCONTESTED that there is no CHALLENGE |
| `TransactionRuns.MoveExactly` | src/agent/common/templates.ts:52-415 | in every run a state, a selection, the argument or the proof can be published at once, exactly from the moment what it answers is published until that is answered |
| `TransactionRuns.PayoutPaysOneSide` | src/agent/common/templates.ts:133-435 | every payout has one output, which the side it pays can spend at once by its signature alone |
| `TransactionRuns.SidesAgree` | src/agent/common/templates.ts:17-440 | every output the graph spends is signed for by both sides, but the refuted argument by the verifier alone; the condition names the side that spends it, but for the challenge output in the uncontested proof |
| `TransactionRuns.TimeoutClaimExactly` | src/agent/common/templates.ts:77-83 | CHALLENGE_UNCONTESTED can be published exactly when the proof is old enough and the first state, the uncontested proof and the claim itself are not published; a challenge makes no difference |
| `TransactionRuns.ChallengeThenTimeout` | src/agent/common/templates.ts:77-83 | a run with both CHALLENGE and CHALLENGE_UNCONTESTED |
| `Amounts.AmountSetter.GetExistingFee` | src/agent/setup/amounts.ts:64-73 | the recursion ends; the fee is what comes in less what is set, with the spent amounts of earlier templates filled; it throws only for a template to fill whose size is not recorded |
| `Amounts.AmountSetter.SetTemplateAmounts` | src/agent/setup/amounts.ts:75-86 | fills the unset output with what is left after the fee and touches nothing after the template, or throws for a size that is not recorded |
| `Amounts.AmountSetter.AddAmounts` | src/agent/setup/amounts.ts:58-110 | succeeds exactly when the size of every template that needs one is recorded and every checked template passes; then every amount is the one the recursion defines, in whatever order it was reached |
| `Amounts.FeeCoversSize` | src/agent/setup/amounts.ts:52-56 | the fee is above size times price times factor, by at most one satoshi |
| `Amounts.FeeExact` | src/agent/setup/amounts.ts:52-86 | a template with an unset output pays exactly the fee its size asks for |
| `Amounts.PassesExactly` | src/agent/setup/amounts.ts:88-98 | such a template passes the check exactly when no amount of it is zero |
| `ValueConservation.GraphProvided` | src/agent/setup/amounts.ts:100-110 | the protocol's templates, with its externally funded amounts given, are what filling in amounts needs |
| `ValueConservation.PaysItsFee` | src/agent/setup/amounts.ts:52-110 | every template of the graph but the external ones and CHALLENGE pays exactly that fee |
| `ValueConservation.Conservation` | src/agent/setup/amounts.ts:52-110 | in every run unspent value plus fees equals the value brought in |
| `Vm32.Vm.NewRegister` | src/generator/32_vm/vm/vm.ts:81-90 | a register not in use, from the pool or new, with no other value changed |
| `Vm32.Vm.AddLimb` | src/generator/32_vm/vm/vm.ts:241-279 | one limb with carry: sum plus 2^32 times the new carry |
| `Vm32.Vm.AndBitOr` | src/generator/32_vm/vm/vm.ts:229-239 | selects between two registers by one bit |
| `Vm32.Vm.Add256Mod` | src/generator/32_vm/vm/vm.ts:241-279 | (a + b) mod p for a and b below p, even when target, a and b are the same registers |
| `Vm32.Vm.AssertEqual256` | src/generator/32_vm/vm/vm.ts:289-299 | success survives exactly when the two numbers are equal, also when the recorded program is replayed from its constants and inputs; by the runner's own rule the replay tells only whether the top limbs are equal |
| `Vm32.Vm.Step1MulMod` | src/generator/32_vm/vm/vm.ts:341-360 | for a below p and any b and c, success survives exactly when c = a * b mod p, also when the recorded program is replayed; by the runner's own rule exactly when the top limb of c is that of the product |
| `Vm32.MulModProgram` | src/generator/32_vm/vm/vm.ts:341-360 | one program for all inputs: replayed on any x below p and any y and z of 256 bits it leaves one exactly when z = x * y mod p and zero otherwise; by the runner's rule exactly when the top limbs agree |
| `Vm32.WrongProductAccepted` | src/generator/32_vm/vm/runner.ts:129-131 | replayed by the runner's rule the program accepts two as the product of one and one |
| `TapTree.Compressor.constructor` | src/agent/common/taptree.ts:138-154 | an empty compressor of depth ceil(log2 total) + 1 |
| `TapTree.Compressor.AddHash` | src/agent/common/taptree.ts:167-189 | the levels hold the pending nodes of the binary expansion of the leaf count |
| `TapTree.Compressor.GetRoot` | src/agent/common/taptree.ts:191-199 | the root of the perfect tree over the leaves padded with the last one, and every sibling of the saved leaf in the proof |
| `TapTree.SavedProofFolds` | src/agent/common/taptree.ts:138-199 | the saved leaf folded with the saved proof gives that root |
| `TapTree.SimpleTapTree.GetRoot` | src/agent/common/taptree.ts:50-63 | the root of the level-by-level tree |
| `TapTree.PlainProofFolds` | src/agent/common/taptree.ts:65-82 | every script's hash folded with its proof gives that root, for any number of scripts |
| `TapTree.SameRootExactly` | src/agent/common/taptree.ts:50-199 | for n leaves the two classes have the same root, for all leaves and all commutative hashes, if and only if the layer sizes stay odd, rounding up, until one is a power of two |
| `TapTree.BothRoots` | src/agent/common/taptree.ts:50-199 | both classes run on the same hashes return those two roots |
| `TapTree.SixLeavesDiffer` | src/agent/common/taptree.ts:50-199 | six leaves on which they differ |
| `Winternitz.AllWellformed` | src/agent/common/winternitz.ts:138-328 | in each of the five types the checksum digits are enough for the largest checksum |
| `WinternitzSigning.SizesLeast` | src/agent/common/winternitz.ts:16-58 | for each type the base is two to the bits of a digit, and the numbers of data and checksum digits are the least that hold its bits and the largest digit sum |
| `WinternitzSigning.SizesUnique` | src/agent/common/winternitz.ts:16-58 | no other numbers of digits are least, so the length of a signature follows from the bits it signs |
| `Winternitz.Antichain` | src/agent/common/winternitz.ts:138-328 | of two distinct digit vectors each reveals some chain less deep than the other, checksum digits counted |
| `Winternitz.Unhash` | src/agent/common/winternitz.ts:64-70 | the first of 256 steps that meets the public key, if any |
| `WinternitzSigning.EncodeWinternitz` | src/agent/common/winternitz.ts:138-328 | what each encoder writes, chain by chain |
| `WinternitzSigning.DecodeToBigint` | src/agent/common/winternitz.ts:138-341 | each decoder accepts exactly one digit vector, or none, and returns its number |
| `WinternitzSigning.AcceptedUnique` | src/agent/common/winternitz.ts:138-328 | a witness is accepted with at most one digit vector |
| `WinternitzSigning.TakesExactlyEncodings` | src/agent/common/winternitz.ts:138-328 | a witness of chain values is accepted as d exactly when it stands at the depths of d |
| `WinternitzSigning.RoundTrip` | src/agent/common/winternitz.ts:138-341 | decoding the encoding of x gives x modulo the range, and x itself for every x in range |
| `WinternitzSigning.RoundTripInRange` | src/agent/common/winternitz.ts:138-341 | every number of the type's width in bits comes back |
| `WinternitzScript.WinternitzDecodeNibble` | src/generator/btc_vm/bitcoin.ts:691-716 | the emitted blocks fail exactly when the chain does not meet the key, and leave the host's digit |
| `WinternitzScript.VerifyChecksum` | src/generator/btc_vm/bitcoin.ts:937-976 | fails exactly when the checksum digits do not spell the sum of the data digits |
| `WinternitzScript.WinternitzDecode` | src/generator/btc_vm/bitcoin.ts:937-976 | the opcodes fail exactly when a chain or the checksum does, and leave the data digits in `target` and everything else as it was (24-bit type; the 256-bit type at lines 1141-1188) |
| `WinternitzScript.ScriptAgreesWithHost` | src/agent/common/winternitz.ts:178-256 | what the script accepts is what the host accepts with every chain met within the base, and the digits spell the host's number |
| `WinternitzScript.SignatureScript` | src/generator/btc_vm/bitcoin.ts:1141-1188 | the whole script on a Script machine: for every witness it succeeds exactly when the host's decoder accepts within the base, and then leaves the digits of the host's number and nothing else; its opcodes depend on the type and the keys only |
| `WinternitzList.WinternitzDecodeNibbleList` | src/generator/btc_vm/bitcoin.ts:1216-1236 | sixteen hashes and a pick at the depth the witness gives: the opcodes fail exactly when the item picked, a hash or whatever lies below, is not the key, and leave the digit given |
| `WinternitzList.WinternitzDecodeList` | src/generator/btc_vm/bitcoin.ts:1280-1318 | for every witness, whatever depths it gives: the opcodes fail exactly when some pick is not its key or the checksum digits do not spell the sum; the digits given are left in `target` and everything else is as it was |
| `WinternitzList.ListAgreesWithHost` | src/agent/common/winternitz.ts:311-328 | the host accepts exactly the witnesses the script accepts in which every digit is one byte below 16, and reads those digits |
| `WinternitzList.EncodingAccepted` | src/agent/common/winternitz.ts:281-298 | the script accepts every encoding of a number and leaves its digits |
| `WinternitzList.FarDigitAccepted` | src/generator/btc_vm/bitcoin.ts:1216-1236 | for any hash and any secrets a witness that the script accepts and the host does not |
| `Fips180.RoundConstants` | src/generator/32_vm/sha-256.ts:9-74 | the 64 round constants are the first 32 fractional bits of the cube roots of the first 64 primes (FIPS 180-4, section 4.2.2) |
| `Fips180.InitialHash` | src/generator/32_vm/sha-256.ts:7-7 | the initial hash value is that of the square roots of the first eight primes (section 5.3.3) |
| `Sha256.SHA256.CalculateW` | src/generator/32_vm/sha-256.ts:165-172 | the word written in the 16-word ring is the next one of the schedule |
| `Sha256.RingNext` | src/generator/32_vm/sha-256.ts:165-172 | the ring holds the last sixteen of the 64 words of FIPS 180-4, section 6.2.2 |
| `Sha256.SHA256.Round` | src/generator/32_vm/sha-256.ts:174-215 | one round on registers is one round of section 6.2.2 |
| `Sha256.SHA256.CalculateHash` | src/generator/32_vm/sha-256.ts:174-215 | for every block and chaining value the registers end with the compression of section 6.2.2 |
| `Sha256.SHA256.Sha256` | src/generator/32_vm/sha-256.ts:217-232 | the padded hash of every 32-byte message |
| `Sha256.SHA256.Sha256pair` | src/generator/32_vm/sha-256.ts:234-252 | the padded hash of every 64-byte message |
| `Sha256.RotatedSmall` | src/generator/32_vm/sha-256.ts:133-163 | an unmasked rotation of a word stays below 2^62 |
| `Blake3Words.InitialWords` | src/agent/final-step/blake3.reference.py:22-31 | the initial words are the first 32 fractional bits of the square roots of the first eight primes |
| `NibbleBlake3.PermuteMessage` | src/agent/final-step/blake-3-4u.ts:77-82 | with the emitter's own table the loop moves the registers as the reference moves its words |
| `NibbleBlake3.BLAKE3.XorWords` | src/agent/final-step/blake-3-4u.ts:103-112 | exclusive or of two 32-bit words held in eight digits, by table |
| `NibbleBlake3.BLAKE3.AddWords` | src/agent/final-step/blake-3-4u.ts:181-207 | the sum modulo 2^32; every carry index is below 32 |
| `NibbleBlake3.BLAKE3.Rotl1` | src/agent/final-step/blake-3-4u.ts:114-157 | rotation by one bit to the left in place |
| `NibbleBlake3.BLAKE3.Rotr` | src/agent/final-step/blake-3-4u.ts:159-179 | rotation by 16, 12, 8 or 7, the last as two digits to the right and one bit to the left |
| `Blake3Words.TurnBySeven` | src/agent/final-step/blake-3-4u.ts:159-179 | rotating right by 7 is rotating right by 8 and left by 1 |
| `NibbleBlake3.BLAKE3.Mixing` | src/agent/final-step/blake-3-4u.ts:226-243 | the quarter round g of the reference |
| `NibbleBlake3.BLAKE3.Round` | src/agent/final-step/blake-3-4u.ts:64-75 | a round of the reference |
| `NibbleBlake3.BLAKE3.Compress` | src/agent/final-step/blake-3-4u.ts:245-293 | the sixteen words of the reference compression; both stacks otherwise as they were |
| `NibbleBlake3.BLAKE3.Hash` | src/agent/final-step/blake-3-4u.ts:299-304 | the first eight words of the compression with the flags of a single root chunk |
| `NibbleBlake3.HashScript` | src/agent/final-step/blake-3-4u.ts:299-304 | the whole script on a Script machine leaves the digits of those words for every message of up to sixteen words; its opcodes depend on the length only |

## Left out

- NibbleBlake3.BLAKE3.Rotl1: does not model the check of the simulated number at its end, nor the like check in the rotations.
- Sha256.SHA256.Sha256pair: overwrites its input registers, as the original does, and promises nothing about them afterwards.
- Vm32.Vm.Add256Mod: promises nothing for operands at or above the prime, which it reduces once only.
- Decasection.Decasector.CalculateStates: does not model the shortcut for lines from 400000 on, nor the cache and the padding to 128 values.
- Blake3Hasher.Hasher.Finalize: is not joined to `Blake3Words.Compress`; the compression there is a parameter on 32-bit vectors.
- Winternitz.Unhash: buffers that are not hashes, and the derivation of secrets from names, are not modelled; secrets are parameters.
- WinternitzScript.WinternitzDecode: models two of the script decoders, with the sizes as parameters; the 1- and 32-bit decoders, the check and verify variants of the list-pick decoder, and the Lamport and equivocation scripts are left out.
- ScriptNibbles.SignedNumberScript: is the part of a refutation script for one number; witness digits are byte strings a script reads as numbers from 0 to 65535. Negative numbers, larger ones and longer byte strings are not modelled; on all of these but negative zero the pick fails at once.
- SavedSuccess.ClearedSuccess: registers have no identity in the model, so which register the clearing moves except is a parameter.
- The final checks of a single instruction in `negify-final-step.ts`, which drop items below the tables.
- `setIfElse` and the macros around the semi-final index of `bitcoin.ts`, byte encoding of scripts, and `executeProgram`.
- The simulated `OP_TUCK`, `OP_2SWAP`, `OP_WITHIN` and `OP_GREATERTHAN`; `OP_2DUP` and `OP_3DUP` are used on equal items only.
- Statistics such as the largest stack, and item names.
- `getLineBySelectionPath`, which returns the left end of the range modelled here.
- The line offsets of `argument.ts`, and `fat-merkle.ts`.
- Agents, listeners, the database, RPC, funding, Python signing, and `optimize_script`.
- Signatures on transactions, template ids and the roles that may sign; any party may publish what the conditions allow.
- Taproot tweaks, control blocks and tagged hashes; pairing algebra and the modular inverse, which is a parameter.
- Vm32.MulModProgram: replays the list as recorded; nothing in the repository saves or loads a 32-bit program. Saving keeps the bit of an instruction under another name than loading reads (`vm.ts` line 431, `runner.ts` line 48), and the runner throws on a register never written; neither is modelled.
- The other 32-bit operations of `vm.ts`, and its cache of hardcoded values, which is the fixed set of constants here.
