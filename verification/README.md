# Verified models of the crypto and base libraries

This project models, in Dafny, the parts of the repository's `src/crypto` and `src/base`
whose correctness is hardest to see from the code, and proves what they are for.

- **X25519** (`curve25519-donna.c`). Field elements are ten signed limbs of 26 and 25 bits.
  `FieldSpec` defines Z_p with p = 2^255 - 19 and the value of a limb vector; every limb
  operation is an imperative method on arrays of 64-bit limbs, in which an overflow would be
  a verification error, proved against one equation in Z_p. The methods are composed to the
  Montgomery ladder, the exponentiation chain and the whole function, and the result is
  proved to be that of the loop that section 5 of RFC 7748 writes out.
- **GHASH, MD5, SHA-1** (`ghash.cc`, `md5.cc`, `sha1_portable.cc`). The objects with their
  partial-block buffers are proved against the standards' definitions (sections 6.3 and 6.4
  of NIST SP 800-38D, section 3 of RFC 1321, sections 5.1.1 and 6.1.2 of FIPS 180-3) for
  every way of splitting the input. The GHASH table multiplication is proved equal to the
  bit-serial one. What the operations on words, bytes and field elements mean is proved in
  arithmetic, on numbers and on bits (`WordLaws`, `GaloisBits`), and the digests of "abc"
  are the published ones (`Md5Answer`, `Sha1Answer`).
- **Protocols and containers changed while they are used** (`lazy_instance.*`,
  `observer_list_threadsafe.h`, `observer_list.h`, `callback_list.h`, `id_map.h`). The
  concurrent protocols are step relations over any number of threads, with invariants and
  properties of whole runs, and with proofs that calls, wrappers and iterations can always
  be brought to their end. The containers are classes proved against value functions, and
  runs over those functions.
- **Codecs, trees and patterns** (`pickle.*` with `bits.h`, `command_line.cc`, `values.cc`,
  `vlog.cc`) and **profiling tallies** (`tracked_objects.cc`), with the uniform choice of a sample.

`Arith` and `Bits` hold the laws of multiplication, division and powers of two that the
proofs need; `BlockStream` and `DeferredRemoval` hold what the digests and the containers
have in common.

Where comments and code differ the models follow the code: `ghash.h` says that the table's
entry 1 is the key, but the entries are in reversed bit order; `fcontract` asks for a fully
reduced number but is used, and proved, for any reduced limbs, with results that may lie
between p and 2^255; `pickle.h` says nothing can be read after a failed read, which
`PickleFormat.ReadAfterFailure` refutes and `PickleFormat.NothingAfterFailure` makes exact; `Clear`
of an IDMap that does not own its objects leaves them in the map between iterations.
The parser that `CommandLineQuoting` inverts is the documented rule set of the Windows
argument parser for arguments after the program name.

DCHECKs are preconditions, size_t has 64 bits unless a maximum is a parameter, hosts are
little-endian, and times, random numbers, the hash map's order and the numbers that the
scheduler would choose are parameters.

## Model

| member | source | states |
|---|---|---|
| `FieldSpec.ResMul` | src/crypto/curve25519-donna.c:5-30 | reduction modulo p is compatible with multiplication; with ResAdd it makes Z_p the meaning of the limb code |
| `FieldSpec.ResAdd` | src/crypto/curve25519-donna.c:5-30 | reduction modulo p is compatible with sums and differences |
| `FieldSpec.ConvIsProduct` | src/crypto/curve25519-donna.c:68-173 | 19 limbs that are the column sums of the mixed-radix schoolbook product have the product of the two values as their value |
| `FieldSpec.FoldTopLimb` | src/crypto/curve25519-donna.c:177-206 | dropping the top limb and adding 19 times it ten places lower keeps the value modulo p |
| `FieldSpec.CarryKeepsValue` | src/crypto/curve25519-donna.c:212-228 | moving a multiple of the limb's radix into the next limb keeps the value |
| `UnrolledProduct.FProduct` | src/crypto/curve25519-donna.c:73-174 | every one of the 19 unrolled limbs is the column sum of the schoolbook product, with every 32-bit cast exact and no 64-bit overflow, for limbs within twice the reduced bounds |
| `UnrolledProduct.FSquareInner` | src/crypto/curve25519-donna.c:244-300 | the unrolled squaring gives the same limbs as the product of the input with itself: the same column sums, with exact casts and no overflow |
| `LimbArithmetic.FSum` | src/crypto/curve25519-donna.c:42-47 | the element of the output is the sum in Z_p; two reduced inputs give limbs within twice the reduced bounds |
| `LimbArithmetic.FDifference` | src/crypto/curve25519-donna.c:53-58 | the element of the output is input minus output, in that order, with the same bounds, also when output and input are the same array |
| `LimbArithmetic.FScalarProduct` | src/crypto/curve25519-donna.c:61-66 | the element of the output is the scalar times the element of the input, when no limb overflows, also in place |
| `LimbArithmetic.FReduceDegree` | src/crypto/curve25519-donna.c:177-206 | folding the nine upper limbs keeps the value modulo p and leaves ten limbs below 2^62 in magnitude |
| `LimbArithmetic.NextPass` | src/crypto/curve25519-donna.c:212-228 | what one carry sweep leaves for the next: a third sweep at the latest finds no carry, and then all limbs are within the reduced bounds |
| `LimbArithmetic.FReduceCoefficients` | src/crypto/curve25519-donna.c:212-228 | for every input below 2^62 in magnitude the data-dependent loop ends after at most three sweeps, the value modulo p is kept, and even limbs end below 2^26 and odd ones below 2^25 |
| `LimbArithmetic.FReduceProduct` | src/crypto/curve25519-donna.c:176-228 | product limbs reduced by both steps stand for the product in Z_p, within the reduced bounds |
| `LimbArithmetic.FMul` | src/crypto/curve25519-donna.c:235-242 | the output is the product in Z_p of two inputs within twice the reduced bounds, and is itself within the reduced bounds, also when output and input are the same array |
| `LimbArithmetic.FSquare` | src/crypto/curve25519-donna.c:302-309 | the output is the square in Z_p, within the reduced bounds |
| `LimbBytes.FExpand` | src/crypto/curve25519-donna.c:312-330 | the limbs are non-negative, in radix range, and their value is the little-endian number of the bytes without bit 255 |
| `LimbBytes.WrapTop` | src/crypto/curve25519-donna.c:336-385 | borrowing from the top limb, at 19 per unit, keeps the value after p is added where it was negative |
| `LimbBytes.ContractPass` | src/crypto/curve25519-donna.c:336-385 | one borrowing pass keeps the lifted value, and leaves all limbs in radix range unless limb 0 is still slightly negative, which the next pass ends |
| `LimbBytes.ContractLimbs` | src/crypto/curve25519-donna.c:336-385 | all limbs end in radix range and their value is the input's, plus p if that was negative |
| `LimbBytes.FContract` | src/crypto/curve25519-donna.c:336-385 | for every reduced input the bytes, read little-endian, are below 2^255 and congruent to the input modulo p, and below p if and only if the input's value is |
| `LimbBytes.RoundTrip` | src/crypto/curve25519-donna.c:312-385 | contracting what was expanded gives the 32 bytes back with bit 255 cleared |
| `Ladder.FormulasAgree` | src/crypto/curve25519-donna.c:396-442 | the source's order of operations and sign of the squared difference give the doubling and differential addition of section 5 of RFC 7748 |
| `Ladder.FMonty` | src/crypto/curve25519-donna.c:396-442 | on limb arrays within the reduced bounds, the outputs are the doubled point and the sum of the two points in Z_p, within the reduced bounds, through every intermediate bound of the field operations |
| `Ladder.ClimbBit` | src/crypto/curve25519-donna.c:464-476 | one call of fmonty with the operands ordered by the bit takes the four arrays from kQ and (k+1)Q to the next rung of the pure ladder |
| `Ladder.ClimbByte` | src/crypto/curve25519-donna.c:461-493 | the eight rungs of one byte, with the pointers swapped after each and the byte shifted left, follow eight bits of the scalar from the top |
| `Ladder.CMult` | src/crypto/curve25519-donna.c:451-497 | for every scalar and point the result is the pure 256-step ladder over Z_p, as projective x and z, within the reduced bounds |
| `LadderSteps.LadderIsStandard` | src/crypto/curve25519-donna.c:451-497 | without bit 255 every rung of the source's 256-step ladder is the rung of a 255-step ladder with coordinates multiplied by a power of 4u |
| `LadderSteps.DonnaLadderIsStandard` | src/crypto/curve25519-donna.c:576-592 | the point that curve25519_donna computes is that of the 255-step ladder over the decoded scalar, up to a projective factor |
| `LadderSteps.LoopIsLadder` | src/crypto/curve25519-donna.c:451-497 | the standard's loop over x_2, z_2, x_3 and z_3 with its conditional swaps, written out as section 5 of RFC 7748 has it, ends with the lower point of the ladder: its result is X times Z^(p-2) |
| `LadderSteps.DonnaIsX25519` | src/crypto/curve25519-donna.c:576-592 | the coordinate that curve25519_donna returns is the result of RFC 7748's own loop on the decoded scalar and u-coordinate, the projective factor cancelled, if u is 0 or 4u to the power p - 1 is 1, which for a prime p is always so |
| `LadderSteps.X25519` | src/crypto/curve25519-donna.c:576-592 | under the same condition the public bytes are congruent to the result of the loop in section 5 of RFC 7748, with its conditional swaps, and below 2^255 |
| `Reciprocal.PowerAdd` | src/crypto/curve25519-donna.c:503-573 | powers in Z_p multiply by adding exponents: the law behind the addition chain |
| `Reciprocal.SquareTimes` | src/crypto/curve25519-donna.c:534-564 | each repeated-squaring loop doubles the exponent as often as its counter says, with the two buffers alternating |
| `Reciprocal.CRecip` | src/crypto/curve25519-donna.c:503-573 | the chain computes the input to the power 2^255 - 21, within the reduced bounds |
| `Reciprocal.ReciprocalExponentIsPMinus2` | src/crypto/curve25519-donna.c:572-572 | 2^255 - 21 is p - 2 |
| `Donna.Clamp` | src/crypto/curve25519-donna.c:581-584 | the three masks on a copy of the secret bytes are decodeScalar25519 of RFC 7748 on the little-endian number |
| `Donna.Curve25519Donna` | src/crypto/curve25519-donna.c:576-592 | for all secret and base point bytes the public bytes are congruent to X times Z^(p-2) of the ladder over the decoded scalar and the 255-bit u-coordinate, and are below 2^255 |
| `GaloisField.Times16IsFourDoubles` | src/crypto/ghash.cc:201-220 | Mul16 with its 16-entry reduction table is four doublings, for every field element |
| `GaloisField.DoubleAdd` | src/crypto/ghash.cc:145-164 | doubling distributes over addition in GF(2^128) |
| `GaloisMultiply.BlockMultiplyIsHorner` | src/crypto/ghash.cc:166-199 | the bit-serial multiplication of section 6.3 of NIST SP 800-38D is Horner evaluation of the bits |
| `GaloisMultiply.FillTable` | src/crypto/ghash.cc:59-67 | after the constructor's loop every entry Reverse(i) of the table is i times the key, as a polynomial |
| `GaloisMultiply.HornerFour` | src/crypto/ghash.cc:187-195 | four bits of Horner evaluation are one Mul16 and the addition of one table entry |
| `GaloisMultiply.MulAfterPrecomputation` | src/crypto/ghash.cc:166-199 | with the precomputed table the four-bits-at-a-time loop multiplies by the key: it equals the bit-serial product of SP 800-38D for all operands |
| `Ghash.AbsorbAppend` | src/crypto/ghash.cc:222-230 | absorbing whole blocks of a concatenation is absorbing one part after the other |
| `Ghash.GaloisHash.constructor` | src/crypto/ghash.cc:51-68 | the object holds the key's multiples and has consumed nothing |
| `Ghash.GaloisHash.Reset` | src/crypto/ghash.cc:70-77 | the object is as fresh, with the same key |
| `Ghash.GaloisHash.UpdateBlocks` | src/crypto/ghash.cc:222-230 | whole blocks are absorbed as section 6.4 of SP 800-38D says |
| `Ghash.GaloisHash.Update` | src/crypto/ghash.cc:232-257 | whatever was buffered before, accumulator and buffer afterwards hold the stream continued by the data |
| `Ghash.GaloisHash.UpdateAdditional` | src/crypto/ghash.cc:79-83 | the additional data so far grows by the piece |
| `Ghash.GaloisHash.UpdateCiphertext` | src/crypto/ghash.cc:85-100 | the ciphertext so far grows by the piece; the first such call pads the additional data to whole blocks |
| `Ghash.GaloisHash.Finish` | src/crypto/ghash.cc:102-133 | the output is the first min(len, 16) bytes of GHASH over padded additional data, padded ciphertext and the two 64-bit lengths in bits, and no other byte is written |
| `Ghash.HashPieces` | src/crypto/ghash.cc:51-133 | every way of splitting additional data and ciphertext into calls, with empty pieces, gives the first min(len, 16) bytes of the one-shot value |
| `GaloisBits.LengthBlockIsNumbers` | src/crypto/ghash.cc:115-118 | the last block is the lengths of additional data and ciphertext in bits modulo 2^64, as numbers of eight bytes, the high-order byte first |
| `GaloisBits.BlockIsNumbers` | src/crypto/ghash.cc:29-40 | Get64 and Put64 read and write the two words of an element as big-endian numbers |
| `GaloisBits.AddCoefficients` | src/crypto/ghash.cc:136-142 | Add sums the coefficients of two polynomials modulo 2 |
| `GaloisBits.DoubleCoefficients` | src/crypto/ghash.cc:145-164 | Double moves every coefficient one place up, and x^128 becomes 1 + x + x^2 + x^7 |
| `BlockStream.FoldAppend` | src/base/md5.cc:202-210 | for any block size, digesting whole blocks of a concatenation is digesting one part after the other |
| `BlockStream.HoldsAppend` | src/base/md5.cc:187-214 | bytes that do not fill the block only lengthen the held tail |
| `BlockStream.HoldsBlocks` | src/crypto/ghash.cc:240-252 | bytes that complete the held tail to whole blocks leave nothing held and the chaining value of all the blocks |
| `Md5Transform.OptimizedForms` | src/base/md5.cc:53-54 | the optimized F1 and F2 are the auxiliary functions F and G of section 3.4 of RFC 1321 |
| `WordLaws.RotateMovesBits` | src/base/md5.cc:59-60 | the rotation moves bit k to bit k + s modulo 32 |
| `WordLaws.PlusIsSum` | src/base/md5.cc:59-60 | sums of words are sums of numbers modulo 2^32 |
| `WordLaws.BytesAreNumber` | src/base/md5.cc:254-260 | the bytes of a word in memory are those of its number, the low-order byte first, and in the opposite order the high-order byte first |
| `Md5Transform.AuxiliaryBits` | src/base/md5.cc:50-56 | the four auxiliary functions, bit by bit, have the truth tables that RFC 1321 describes |
| `Md5Transform.MD5Transform` | src/base/md5.cc:67-147 | the 64 unrolled steps with their literal word numbers, constants and rotations are the four table-driven rounds of RFC 1321 |
| `Md5.ByteReverse` | src/base/md5.cc:39-48 | on a little-endian host the function leaves the buffer as it is |
| `Md5.CarryCounts` | src/base/md5.cc:178-181 | the two 32-bit words with the carry test count 8 times the length modulo 2^64, for every length added |
| `Md5.Context.MD5Init` | src/base/md5.cc:157-165 | the context has consumed nothing |
| `Md5.Context.MD5Update` | src/base/md5.cc:171-215 | the context has consumed the message continued by the data: chaining words, held tail and bit count |
| `Md5.Context.MD5Final` | src/base/md5.cc:221-262 | the digest is that of RFC 1321 of all bytes given, in both padding branches, and the context is cleared |
| `Md5.Context.MD5IntermediateFinal` | src/base/md5.cc:264-270 | the digest so far is returned and the context can be continued as if nothing had been asked |
| `Md5.HashPieces` | src/base/md5.cc:286-291 | every split of the message into updates gives the digest of the concatenation |
| `Md5.LengthIsNumber` | src/base/md5.cc:178-181 | the eight bytes behind the padding are 8 times the length modulo 2^64, the low-order byte first |
| `Md5Answer.DigestOfAbc` | src/base/md5.cc:286-291 | the digest of "abc" is the one that section A.5 of RFC 1321 lists, through all 64 steps and their constants |
| `Sha1.FIsStepFunction` | src/base/sha1_portable.cc:66-76 | the source's choice and majority forms are Ch, Parity and Maj of FIPS 180-3 for every round |
| `Sha1.StepBits` | src/base/sha1_portable.cc:66-76 | choice, parity and majority, bit by bit |
| `Sha1.ConstantsAreRoots` | src/base/sha1_portable.cc:82-92 | the four constants are the square roots of 2, 3, 5 and 10, times 2^30 and rounded down |
| `Sha1.BytesOfNumber` | src/base/sha1_portable.cc:147-154 | the eight bytes behind the padding are the bit count modulo 2^64, the high-order byte first |
| `Sha1.SwapEndsReverses` | src/base/sha1_portable.cc:94-96 | swapends turns a word's memory bytes into its big-endian bytes |
| `Sha1.SecureHashAlgorithm.Init` | src/base/sha1_portable.cc:100-113 | the object has consumed nothing |
| `Sha1.SecureHashAlgorithm.Process` | src/base/sha1_portable.cc:157-198 | with the message bytes and the schedule in one union, the chaining words become those of section 6.1.2 of FIPS 180-3 |
| `Sha1.SecureHashAlgorithm.Update` | src/base/sha1_portable.cc:123-131 | the object has consumed the message continued by the data, byte by byte through the union |
| `Sha1.SecureHashAlgorithm.PadZeros` | src/base/sha1_portable.cc:133-145 | one bit and zeros up to 448 modulo 512 bits, through a further block when fewer than eight bytes are left |
| `Sha1.SecureHashAlgorithm.Final` | src/base/sha1_portable.cc:115-121 | the words in memory are the bytes of the SHA-1 digest of the whole message, sections 5.1.1 and 6.1.2 |
| `Sha1.HashPieces` | src/base/sha1_portable.cc:207-214 | every split of the message into updates gives the digest of the concatenation |
| `Sha1Answer.DigestOfAbc` | src/base/sha1_portable.cc:207-214 | the digest of "abc" is the example of FIPS 180, through the schedule and all 80 steps |
| `LazyInstance.StepInv` | src/base/lazy_instance.cc:17-50 | every load, compare-and-swap, spin, construction, store and registration of any thread keeps: one creator, who alone holds the word at creating; finished threads only with an instance; one callback to come or registered |
| `LazyInstance.RunInv` | src/base/lazy_instance.h:141-169 | the invariant holds in every state of every interleaving of any number of threads |
| `LazyInstance.WordMoves` | src/base/lazy_instance.cc:17-43 | the state word moves only from 0 to creating to a pointer, and back to 0 only by OnExit |
| `LazyInstance.ConstructorRunsOnce` | src/base/lazy_instance.cc:17-43 | two constructor calls, by any threads, have an OnExit between them: the constructor runs at most once before exit |
| `LazyInstance.CreationStartsOnce` | src/base/lazy_instance.cc:17-38 | two won compare-and-swaps have an OnExit between them |
| `LazyInstance.ReturnAfterConstruction` | src/base/lazy_instance.h:141-169 | a call returns only what a constructor call has returned since the last OnExit |
| `LazyInstance.SameInstance` | src/base/lazy_instance.h:141-169 | all calls that return before the next OnExit return the same instance |
| `LazyInstance.ExitDeletesInstance` | src/base/lazy_instance.h:198-208 | OnExit runs on an instance that was constructed, and is registered once for it |
| `LazyInstance.ExitPendingForInstance` | src/base/lazy_instance.cc:40-50 | with no thread inside, OnExit is pending exactly if there is an instance and its traits ask for deletion |
| `LazyInstance.SpinnersHaveCreator` | src/base/lazy_instance.cc:33-37 | a thread that can only spin has another thread creating the instance |
| `LazyInstance.FastPath` | src/base/lazy_instance.h:141-169 | a call that finds an instance returns it with the thread's next step, without a compare-and-swap |
| `LazyInstance.CanReturn` | src/base/lazy_instance.cc:17-50 | after any run every thread can return from Pointer() within six steps, its own and those of at most one creating thread |
| `LazyInstance.ComparisonKnowsCreation` | src/base/lazy_instance.h:171-180 | operator== says null before creation starts and the instance's buffer from then on |
| `ObserverListThreadSafe.StepInv` | src/base/observer_list_threadsafe.h:115-256 | every step of every thread keeps the invariant of every thread: map, contexts, iteration depths and wrapper stacks agree, and a context out of the map is on its way to deletion |
| `ObserverListThreadSafe.OthersUntouched` | src/base/observer_list_threadsafe.h:115-256 | a thread's step changes nothing of what another thread's invariant reads, although all share one map |
| `ObserverListThreadSafe.TouchedAlive` | src/base/observer_list_threadsafe.h:115-256 | a step dereferences only contexts that exist and are not deleted |
| `ObserverListThreadSafe.NoUseAfterDelete` | src/base/observer_list_threadsafe.h:159-163 | in every run no step dereferences a context that an earlier step deleted, so none is deleted twice |
| `ObserverListThreadSafe.RefinesSetsOfObservers` | src/base/observer_list_threadsafe.h:115-164 | the protocol refines one set of observers for each thread: adding and removing change the caller's set, and no other step of any thread changes any set |
| `ObserverListThreadSafe.CalledOnAddingThread` | src/base/observer_list_threadsafe.h:218-256 | an observer is called only on a thread that added it, with no removal by that thread in effect since |
| `ObserverListThreadSafe.NothingLeakedAtRest` | src/base/observer_list_threadsafe.h:242-256 | when no thread is in a call the contexts not deleted are those of the map, each non-empty and without nulls |
| `ObserverListThreadSafe.EmptyWhenAllRemoved` | src/base/observer_list_threadsafe.h:167-170 | at rest the map is empty, as AssertEmpty demands, exactly if every observer added has been removed |
| `ObserverListThreadSafe.ListsInjective` | src/base/observer_list_threadsafe.h:210-212 | no context is in the map twice, so the destructor deletes each once |
| `ObserverListDelivery.TaskBegins` | src/base/observer_list_threadsafe.h:218-236 | a posted task that finds its context current begins to notify with the thread's next step |
| `ObserverListDelivery.HeldOrCalled` | src/base/observer_list_threadsafe.h:235-240 | while a notification runs, with other notifications nested in it, an observer that is not removed stays in its slot, and has been called by it once if the cursor is past the slot and not at all before |
| `ObserverListDelivery.RegisteredCalledOnce` | src/base/observer_list_threadsafe.h:218-240 | every observer that a thread has registered when a notification begins on it, and does not remove before it ends, is called by it exactly once, in every interleaving |
| `ObserverListNotify.NotifyPosts` | src/base/observer_list_threadsafe.h:178-193 | Notify posts one task for each context of the map and changes nothing else |
| `ObserverListNotify.WaitingTasks` | src/base/observer_list_threadsafe.h:178-193 | in every run the tasks that wait for a context are those that Notify has posted for it and no NotifyWrapper has taken |
| `ObserverListNotify.EveryTaskPosted` | src/base/observer_list_threadsafe.h:178-236 | every NotifyWrapper runs a task that a Notify has posted |
| `ObserverListNotify.TakenOnceLater` | src/base/observer_list_threadsafe.h:178-236 | a task is taken after it is posted, once, and no other is taken in its place |
| `ObserverListNotify.TakenOrWaiting` | src/base/observer_list_threadsafe.h:178-236 | a posted task is either taken or waits, and then its thread can take it whenever it is free to run a task |
| `ObserverListNotify.PostedForRegistered` | src/base/observer_list_threadsafe.h:178-193 | Notify posts a task to the context of every registered observer that is not just being removed |
| `ObserverListNotify.TaskFindsRegistered` | src/base/observer_list_threadsafe.h:218-232 | an observer registered at Notify and not removed since is still in the context for which the task was posted, and the task finds that context current |
| `ObserverListNotify.PostedTaskBegins` | src/base/observer_list_threadsafe.h:218-236 | the thread that takes such a task begins a wrapper with its next step |
| `ObserverListNotify.NotifiedExactlyOnce` | src/base/observer_list_threadsafe.h:172-240 | for every Notify, an observer registered then is called exactly once by the NotifyWrapper that runs the task posted for its context, when that ends, unless it is removed in the meantime |
| `ObserverListProgress.AddTakesEffect` | src/base/observer_list_threadsafe.h:115-130 | a thread that calls AddObserver has the observer registered after its next step |
| `ObserverListProgress.RemoveTakesEffect` | src/base/observer_list_threadsafe.h:136-164 | a thread that calls RemoveObserver no longer has the observer registered, at once or after its next step |
| `ObserverListProgress.CalledMayCall` | src/base/observer_list_threadsafe.h:235-240 | while an observer is called it may itself add and remove observers, notify and run tasks, and when it returns its wrapper goes on |
| `ObserverListProgress.CanEnd` | src/base/observer_list_threadsafe.h:235-240 | after any run the innermost wrapper of a thread can end, with steps of that thread alone |
| `ObserverListProgress.WaitingTaskCanRun` | src/base/observer_list_threadsafe.h:218-240 | a thread free to run a task can run any that waits for its current context from its lock to its end |
| `ObserverListProgress.CanComeToRest` | src/base/observer_list_threadsafe.h:115-256 | after any run every thread can come to rest by its own steps: no thread waits for another |
| `DeferredRemoval.RemovedFromLive` | src/base/observer_list.h:169-180 | making a slot null and erasing it remove the same entry from the list of live entries |
| `DeferredRemoval.CompactedIsFull` | src/base/observer_list.h:205-209 | compaction leaves no null and the same live entries in order |
| `ObserverList.ObserverListBase.AddObserver` | src/base/observer_list.h:158-166 | an observer is appended unless it is there already |
| `ObserverList.ObserverListBase.RemoveObserver` | src/base/observer_list.h:169-180 | the first slot with the observer becomes null during a notification and is erased otherwise; nothing else changes |
| `ObserverList.ObserverListBase.HasObserver` | src/base/observer_list.h:183-190 | true exactly if some slot holds the argument |
| `ObserverList.ObserverListBase.Clear` | src/base/observer_list.h:193-202 | all slots null during a notification, none otherwise |
| `ObserverList.Iterator.constructor` | src/base/observer_list.h:130-138 | the iterator starts at slot 0 with the limit its list's type asks for, and counts itself |
| `ObserverList.Iterator.GetNext` | src/base/observer_list.h:146-155 | the observer of the first slot from the cursor that is not null and below the limit, and the cursor behind it; null if there is none or the list is gone |
| `ObserverList.Iterator.Close` | src/base/observer_list.h:140-143 | the last iterator compacts the list, if the list still exists |
| `ObserverListRuns.EventKeeps` | src/base/observer_list.h:130-209 | every event keeps: no observer twice, depth equals the number of iterators, no null slot at depth 0 |
| `ObserverListRuns.DeferralIsInvisible` | src/base/observer_list.h:158-209 | to the registered observers every event does what it does to a plain list changed at once |
| `ObserverListRuns.SlotsStay` | src/base/observer_list.h:130-180 | while an iterator lives slots do not move, and its cursor does not go back |
| `ObserverListRuns.ReturnedInOrder` | src/base/observer_list.h:146-155 | an iterator returns slots in increasing order, so each at most once, whatever happens between its calls |
| `ObserverListRuns.SlotReturnedExactlyOnce` | src/base/observer_list.h:146-155 | a slot below the limit that still holds its observer when the iteration finishes was returned exactly once |
| `ObserverListRuns.PresentNotifiedExactlyOnce` | src/base/observer_list.h:130-180 | an observer registered at the start and not removed before the finish is notified exactly once |
| `ObserverListRuns.CanNotify` | src/base/observer_list.h:130-155 | after any run a new iterator can go on to its end, has by then notified every observer of the list, and can be destroyed |
| `ObserverListRuns.OnlyRegisteredNotified` | src/base/observer_list.h:169-180 | what is notified is registered at that moment: removed observers are skipped |
| `ObserverListRuns.ExistingOnly` | src/base/observer_list.h:130-138 | with NOTIFY_EXISTING_ONLY only observers registered at the start are notified |
| `ObserverListRuns.AddedAreNotified` | src/base/observer_list.h:130-155 | with NOTIFY_ALL an observer added during the iteration and still there at its finish is notified too |
| `ObserverListRuns.NullsGoneAtDepthZero` | src/base/observer_list.h:205-209 | at depth 0 the vector is exactly the registered observers |
| `CallbackList.CallbackListBase.Unsubscribe` | src/base/callback_list.h:86-94 | the subscription's node becomes null while iterators live; otherwise it is erased and the removal callback runs once |
| `CallbackList.CallbackListBase.Compact` | src/base/callback_list.h:178-192 | the null nodes go, and the removal callback runs once if there were any |
| `CallbackList.Iterator.GetNext` | src/base/callback_list.h:146-156 | the callback of the first node from the iterator on that is not null; the iterator moves behind it, or to the end for good |
| `CallbackList.Iterator.Close` | src/base/callback_list.h:140-144 | the last iterator compacts the list |
| `CallbackList.DeferralIsInvisible` | src/base/callback_list.h:86-192 | to the live callbacks every event does what it does to a plain list changed at once |
| `CallbackList.AheadRunExactlyOnce` | src/base/callback_list.h:146-156 | a callback ahead of an iterator and not removed before its finish is run by it exactly once from then on |
| `CallbackList.PresentRunExactlyOnce` | src/base/callback_list.h:86-156 | a callback in the list when an iterator is made, whose subscription is not destroyed before the iterator has finished, keeps its node and is run exactly once |
| `CallbackList.CanRunAll` | src/base/callback_list.h:128-156 | after any run a new iterator can run every callback of the list, finish and be destroyed |
| `CallbackList.CopyRunsWhatWasAhead` | src/base/callback_list.h:128-156 | a copied iterator runs a callback that stays subscribed if and only if it was ahead of the original when the copy was made, and then once |
| `CallbackList.AddedAtEndNotRun` | src/base/callback_list.h:146-156 | a callback added while an iterator is at the end is never run by it; one added before is ahead of it |
| `CallbackList.NullsGone` | src/base/callback_list.h:178-192 | without iterators no null node is left |
| `IdMap.IDMap.Remove` | src/base/id_map.h:84-98 | the id is gone from the users' view at once, whether the entry is erased now or waits for the iterators |
| `IdMap.IDMap.Replace` | src/base/id_map.h:105-117 | the old value is returned and the live entry, if any, has the new one |
| `IdMap.IDMap.Lookup` | src/base/id_map.h:135-141 | the answer differs from the users' view exactly for ids that wait to be removed |
| `IdMap.IDMap.Size` | src/base/id_map.h:143-146 | size() is the number of live ids |
| `IdMap.IDMap.Clear` | src/base/id_map.h:119-128 | no id is left in the users' view, except that between iterations a map that does not own its objects keeps everything |
| `IdMap.IDMap.Compact` | src/base/id_map.h:252-257 | the waiting removals are done and the users' view does not change |
| `IdMap.Iterator.Advance` | src/base/id_map.h:204-223 | the iterator comes to the next position whose id does not wait to be removed |
| `IdMap.Iterator.Close` | src/base/id_map.h:178-187 | the users' view is kept; while other iterators remain table, order and waiting ids stay as they are, and with the last one the table becomes that view |
| `IdMapRuns.EventKeeps` | src/base/id_map.h:84-257 | every event of nested, copied and interleaved iterators keeps: the order lists the table's ids once, only ids of the table wait, none at depth 0, the depth counts the iterators, and each iterator is inside the table |
| `IdMapRuns.DeferralIsInvisible` | src/base/id_map.h:84-257 | to the users' view every event does what it does to a plain map changed at once |
| `IdMapRuns.TableStays` | src/base/id_map.h:149-257 | while an iterator lives, with whatever iterators come and go inside, the table keeps its ids and their order, the ids that wait only become more, and the iterator does not go back |
| `IdMapRuns.VisitsLiveOnce` | src/base/id_map.h:204-223 | an iterator of a nested run comes only to ids in the users' view, and to none twice |
| `IdMapRuns.LiveVisitedOnce` | src/base/id_map.h:159-223 | an iterator at the end, new or copied, has come exactly once to every id still live from its first position on |
| `IdMapRuns.NeverRemovedVisitedOnce` | src/base/id_map.h:143-223 | an id in the map when an iterator is made, and not removed before the iterator is at the end, has been visited by it exactly once |
| `IdMapRuns.CanVisitAll` | src/base/id_map.h:143-223 | after any run a new iterator can visit every id of the map, come to the end and be destroyed |
| `IdMapRuns.NothingWaitsAtRest` | src/base/id_map.h:178-187 | without iterators the table is the users' view: no removal waits |
| `BitUtilities.AlignRoundsUp` | src/base/bits.h:45-48 | where size_t does not wrap, the mask form of Align gives a multiple of 2^k, at least the size and less than 2^k above it |
| `BitUtilities.MultipleUnique` | src/base/bits.h:44-48 | there is only one such multiple |
| `BitUtilities.Log2Floor` | src/base/bits.h:16-32 | the binary search over five shifts returns the i with 2^i <= n < 2^(i+1), and -1 for 0 |
| `BitUtilities.Log2Ceiling` | src/base/bits.h:34-42 | returns the i with 2^(i-1) < n <= 2^i, and -1 for 0 |
| `BitUtilities.LogUnique` | src/base/bits.h:16-17 | at most one exponent satisfies what Log2Floor promises |
| `PickleFormat.FieldRoundTrip` | src/base/pickle.cc:82-210 | a field of any type, read where it was written in any payload, gives its value and leaves the read index just behind it |
| `PickleFormat.RoundTrip` | src/base/pickle.cc:82-210 | any sequence of fields read back in the order written gives exactly the values and ends at the end of the payload |
| `PickleFormat.EncodingIsExact` | src/base/pickle.cc:288-412 | what is written for a field is its bytes, as the reads take them, and zeros up to the next multiple of four; a boolean is 1 or 0 |
| `PickleFormat.ReadStaysInside` | src/base/pickle.cc:40-80 | on arbitrary bytes a number that a read hands out is that of the payload's bytes at the index, little-endian and in two's complement if signed; a string has the length given there and is the slice behind it |
| `PickleFormat.ReadStaysAligned` | src/base/pickle.cc:40-47 | on arbitrary bytes the read index stays a multiple of 4 or is the end |
| `PickleFormat.FailureGoesToEnd` | src/base/pickle.cc:49-80 | a failed read moves the index to the end if and only if it is not an overflowing element count or negative length with more than four bytes left, which passes just four bytes |
| `PickleFormat.NothingAfterFailure` | src/base/pickle.h:29-33 | after a failed read no read of at least one byte succeeds, if and only if the failed one did not leave bytes in that way; a read of zero bytes always succeeds |
| `PickleFormat.NothingAfterTheEnd` | src/base/pickle.h:29-33 | at the end every read fails, except one of zero bytes |
| `PickleFormat.ReadAfterFailure` | src/base/pickle.cc:71-80 | a payload for which a read succeeds after a failed one, which the header's comment excludes |
| `Pickle.DeducedHeader` | src/base/pickle.cc:234-251 | for any data the deduced header and payload fill it exactly, and the data is refused just when there is no such aligned header |
| `Pickle.FindNextFindsWhole` | src/base/pickle.cc:339-377 | FindNext succeeds just when a whole pickle with that header size is there, and returns its end |
| `Pickle.SplitJoin` | src/base/pickle.cc:339-377 | pickles with the same header size written one behind the other are found again one by one, with nothing left over |
| `Pickle.GrownCovers` | src/base/pickle.cc:396-406 | growth makes enough room, keeps the 64-byte granularity and nearly doubles the capacity |
| `Pickle.Pickle.constructor` | src/base/pickle.cc:212-221 | an empty payload behind a 4-byte header |
| `Pickle.Pickle.WithHeader` | src/base/pickle.cc:223-232 | an empty payload behind the header rounded up to a multiple of 4 |
| `Pickle.Pickle.FromData` | src/base/pickle.cc:234-251 | a view of the data itself, or a refused pickle with a null header |
| `Pickle.Pickle.Copy` | src/base/pickle.cc:253-260 | a new block with the same image and payload; the write offset is taken over, which is 0 for constant data |
| `Pickle.Pickle.Reserve` | src/base/pickle.cc:312-322 | room for the given number of bytes, with the image unchanged |
| `Pickle.Pickle.Grow` | src/base/pickle.cc:396-406 | room for the given payload size, with image and payload unchanged, by the growth rule |
| `Pickle.Pickle.WriteBytesCommon` | src/base/pickle.cc:387-413 | the padded bytes come behind the write offset, the size field follows it, the rest of the header is kept, and the capacity covers the offset |
| `Pickle.Pickle.WriteInt` | src/base/pickle.h:171-173 | appends the encoded value |
| `Pickle.Pickle.WriteString16` | src/base/pickle.cc:295-301 | appends the count of units and their padded bytes |
| `Pickle.Pickle.WriteData` | src/base/pickle.cc:303-305 | a negative length is refused with nothing written; otherwise length and padded bytes are appended |
| `Pickle.PickleIterator.constructor` | src/base/pickle.cc:22-26 | reads the pickle's payload in place from its start; nothing for a refused pickle |
| `Pickle.PickleIterator.Advance` | src/base/pickle.cc:40-47 | the read index moves by the rounded size but never past the end |
| `Pickle.PickleIterator.GetReadPointerAndAdvance` | src/base/pickle.cc:60-69 | hands out the bytes at the read index if that many are left, and otherwise goes to the end |
| `Pickle.PickleIterator.ReadField` | src/base/pickle.cc:82-210 | each Read method gives what decoding the payload at the read index gives |
| `Pickle.Pickle.WriteAll` | src/base/pickle.h:163-213 | fields written one after the other with the Write methods of their types append exactly their encodings to the payload |
| `Pickle.Pickle.ImageIsWhole` | src/base/pickle.cc:339-351 | data() and size() of a pickle are one whole pickle for FindNext |
| `Pickle.WriteThenRead` | src/base/pickle.h:100-115 | any fields written to a new pickle, read in the same order through another pickle over a copy of its data() and size(), come back unchanged |
| `Pickle.RoundTripThroughData` | src/base/pickle.cc:234-251 | a read-only pickle over the data of a pickle holding encoded fields reads back exactly the fields |
| `CommandLineQuoting.QuoteForCommandLineToArgvW` | src/base/command_line.cc:98-143 | the loop with its run doubling and its step to the end of a run computes the quoted text |
| `CommandLineQuoting.QuotedJustWhenNeeded` | src/base/command_line.cc:98-113 | an argument is left as it is if and only if it has no space, backslash or double quote, nor a percent sign where placeholders are quoted; otherwise double quotes stand around it |
| `CommandLineQuoting.ParseBody` | src/base/command_line.cc:115-140 | inside quotes the parser reads the quoted text up to the closing quote and gives the argument back |
| `CommandLineQuoting.ParseQuoted` | src/base/command_line.cc:98-143 | a quoted argument before a separator reads as the argument, with the rest untouched |
| `CommandLineQuoting.QuoteRoundTrip` | src/base/command_line.cc:98-143 | parsing the quoted argument gives it back if and only if it is not empty and has no tab or is quoted anyway |
| `CommandLine.JoinRoundTrip` | src/base/command_line.cc:437-466 | with switches not recognised, parsing the quoted arguments with spaces between gives back the list if and only if none is empty and none with a tab is left unquoted |
| `CommandLine.SwitchForms` | src/base/command_line.cc:31-63 | an argument is a switch with a given prefix if and only if that is two dashes, one dash not followed by another, or a slash where allowed, and something follows |
| `CommandLine.AfterTerminator` | src/base/command_line.cc:437-466 | from "--" on no argument is taken for a switch |
| `CommandLine.CommandLine.GetArgumentsStringInternal` | src/base/command_line.cc:437-466 | the loop builds the line of switches and arguments, recognising switches up to the terminator |
| `CommandLine.ArgumentsRoundTrip` | src/base/command_line.cc:437-466 | for every list of arguments, parsing that line gives back the list if and only if every switch name has no double quote or separator, no switch has an equals sign with nothing behind it, and every value and argument is quoted or has no tab and is not empty |
| `CommandLine.RenderedRoundTrip` | src/base/command_line.cc:445-463 | one argument on a line of its own is read back if and only if the same condition holds of it |
| `CommandLine.EmptyValueIsLost` | src/base/command_line.cc:450-457 | the failing family: a switch with an equals sign and no value is read back without the sign |
| `CommandLine.CombinedIsSwitch` | src/base/command_line.cc:315-337 | what AppendSwitchNative inserts is a switch with the same key and value again if and only if the name has no equals sign and there is a key or a value |
| `CommandLine.LowersLetters` | src/base/command_line.cc:315-320 | the key has the 26 capital letters made small and every other character as it was |
| `CommandLine.CommandLine.AppendSwitchNative` | src/base/command_line.cc:315-337 | the combined switch is inserted behind the other switches and before all arguments, and the map has the last value under the lower-case key |
| `Vlog.MatchVlogPattern` | src/base/vlog.cc:127-178 | terminates and returns true exactly if the string is a concatenation of one piece for each pattern character: any for a star, one for a question mark, a slash for a slash, the character itself otherwise |
| `Vlog.StarsCoalesce` | src/base/vlog.cc:158-161 | a run of stars means the same as one |
| `Vlog.StarTail` | src/base/vlog.cc:168-174 | after a star, a pattern that does not start with one matches exactly if it matches some non-empty suffix |
| `Vlog.ModuleSplits` | src/base/vlog.cc:87-100 | GetModule returns a name if and only if it is the name in a split of the file name: directory up to the last slash, name, suffix -inl where the stem ends so, extension from the last dot where there is one |
| `Vlog.GetVlogLevel` | src/base/vlog.cc:104-116 | the level is that of the first pattern that matches the file or its module, and the maximum level if none does |
| `Values.GetAfterSet` | src/base/values.cc:401-423 | what was set at a path is found there |
| `Values.GetBelowSet` | src/base/values.cc:401-423 | below the path the entries are those of the value set |
| `Values.SetElsewhere` | src/base/values.cc:401-423 | every path that is not comparable keeps its entry |
| `Values.RemoveElsewhere` | src/base/values.cc:755-806 | after a removal, pruning or not, every path that is not comparable keeps its entry |
| `Values.NoEmptyOnPath` | src/base/values.cc:788-806 | a successful RemovePath leaves no empty dictionary on the path |
| `Values.RemoveKeepsParents` | src/base/values.cc:755-770 | Remove without pruning keeps every dictionary on the path |
| `Values.KeysAppend` | src/base/values.cc:401-423 | the keys of two paths with a dot between them are the keys of one and then those of the other |
| `Values.PathLaws` | src/base/values.cc:401-806 | the laws of Set, Get and RemovePath for each other, for path strings |
| `Values.CopyIsPrunedOnce` | src/base/values.cc:28-67 | the copy has no empty list or dictionary at any depth, copying again changes nothing, and a tree without empty children is copied whole |
| `Values.CopyKeepsLeaves` | src/base/values.cc:28-67 | under every path the copy has the copied entry, or nothing where that would be empty |
| `Values.LeafIsKept` | src/base/values.cc:28-67 | just the values with nothing but empty lists and dictionaries below are left out |
| `Values.CopiesOfItems` | src/base/values.cc:28-39 | the copy of a list is, in order, the copies of its items that have something left |
| `Values.MergeTwice` | src/base/values.cc:816-831 | merging the same dictionary twice is merging it once |
| `Values.MergeEverywhere` | src/base/values.cc:816-831 | at every path the merge has the second dictionary's entry, merged with the first's if both are dictionaries, or else the first's, unless the second has no dictionary on the way there |
| `Values.MergeAssociates` | src/base/values.cc:816-831 | merging three dictionaries is associative if and only if there is no path where the first and last have dictionaries x and y, merging y into x does not give y, and the middle one has something else |
| `Values.MergeNotAssociative` | src/base/values.cc:816-831 | three dictionaries for which it is not |
| `Values.Equals` | src/base/values.cc:150-162 | Equals returns true exactly for the same tree, so it is an equivalence |
| `Values.ListEquals` | src/base/values.cc:1173-1190 | the walk over two lists returns true exactly for the same list |
| `Values.DictionaryEquals` | src/base/values.cc:859-879 | the lockstep walk over two sorted maps returns true exactly for the same dictionary |
| `Values.DeepCopyEquals` | src/base/values.cc:843-853 | a deep copy is the same tree |
| `Values.DictionaryValue.Get` | src/base/values.cc:495-516 | the walk over the path finds the entry at its list of keys |
| `Values.DictionaryValue.Set` | src/base/values.cc:401-423 | the tree is the old one with the value stored at the path, non-dictionaries on the way replaced |
| `Values.DictionaryValue.Remove` | src/base/values.cc:755-770 | the entry found through the last dot's parent is returned and taken out, without pruning; otherwise nothing changes |
| `Values.DictionaryValue.RemovePath` | src/base/values.cc:788-806 | the entry is returned and taken out with the dictionaries this empties; otherwise nothing changes |
| `Values.DictionaryValue.MergeDictionary` | src/base/values.cc:816-831 | the loop in any key order gives the merged dictionary |
| `TrackedDeaths.DeathData.RecordDeath` | src/base/tracked_objects.cc:136-169 | count, sums modulo 2^32, maxima and sample tell the deaths with this one added; the sample is one of the phase's own deaths |
| `DeathSamples.RecordPhase` | src/base/tracked_objects.cc:156-168 | after the deaths of a phase the sample is the last one whose random number was divisible by its place in the phase |
| `DeathSamples.SampleIsUniform` | src/base/tracked_objects.cc:156-168 | of the remainders that the random numbers of n deaths can leave, exactly one in n makes any given death the sample: the selection is uniform |
| `TrackedDeaths.DeathData.OnProfilingPhaseCompleted` | src/base/tracked_objects.cc:171-204 | the phase's snapshot is recorded and the maxima and sampling start anew |
| `TrackedDeaths.DeltaIsOwn` | src/base/tracked_objects.cc:236-243 | the delta of two snapshots has the later phase's own sums, even after they wrapped, its maxima and a sample of it, and as many of its deaths as fit below the clamp |
| `TrackedDeaths.EmitsUnclamped` | src/base/tracked_objects.cc:642-654 | for any deaths and phase ends exactly the phases with deaths that began below the clamp are emitted, each with its own figures and the count that the clamp leaves |
| `TrackedDeaths.EmitsOwnPhases` | src/base/tracked_objects.cc:642-654 | every phase with deaths is emitted with just its own count, sums, maxima and sample if and only if there were at most INT_MAX deaths |
| `TrackedDeaths.DeltasTelescope` | src/base/tracked_objects.cc:642-654 | the emitted counts add up to the clamped number of all deaths, and the emitted run and queue durations, modulo 2^32, to those of all phases that began below the clamp, which are all deaths up to INT_MAX |
| `TrackedDeaths.ClampedCountIsWrong` | src/base/tracked_objects.cc:140-243 | the count delta of two snapshots is the phase's own if and only if the phase is empty or all deaths are at most INT_MAX, and it is positive if and only if there are deaths and INT_MAX was not reached before |
| `TrackedDeaths.ClampedPhaseIsLost` | src/base/tracked_objects.cc:642-654 | the walk gives a phase its own count if and only if it is empty or all deaths up to its end are at most INT_MAX, and reports nothing for it if and only if it is empty or INT_MAX was reached before it |
| `TrackedDeaths.SnapshotExecutedTask` | src/base/tracked_objects.cc:636-655 | the walk over a task's snapshots reports every phase with just its own deaths if and only if there were at most INT_MAX, and counts and both sums add up as far as deaths are counted |
| `TaskStopwatches.TaskStopwatch.Start` | src/base/tracked_objects.cc:868-889 | the stopwatch runs inside the thread's current one and becomes the current one |
| `TaskStopwatches.TaskStopwatch.Stop` | src/base/tracked_objects.cc:891-918 | the wallclock time is added to what the parent leaves out, and the parent is current again |
| `TaskStopwatches.Run` | src/base/tracked_objects.cc:868-934 | all stopwatch objects of a well-nested run end stopped, the run durations they give add up to the outermost wallclock duration modulo 2^32, and the stopwatch around leaves that much out |
| `TaskStopwatches.RunDurationsAddUp` | src/base/tracked_objects.cc:928-934 | the run durations of all stopwatches of a nest add up to the outermost wallclock duration, modulo 2^32 |

## Left out

- LadderSteps.DonnaIsX25519: does not prove that p is prime, from which its condition on 4u follows by Fermat's little theorem; the group law, and that Z^(p-2) is an inverse, are left out with it.
- LimbBytes.FContract: does not promise a canonical result, because the code does not reduce values from p to 2^255 - 1; its last clause says when the result is canonical.
- Ladder.FMonty: takes its input arrays as distinct, as the only caller passes them.
- LimbArithmetic.FScalarProduct: `<<` and `*` on negative limbs are multiplication, as the source's comment assumes.
- Ghash.GaloisHash.Finish: models size_t with 64 bits; on a 32-bit host the byte counters wrap earlier.
- Md5.ByteReverse: models a little-endian host with 32-bit words stored in place; big-endian hosts are not modelled.
- MD5 and SHA-1 wrappers for strings and files, hexadecimal output.
- LazyInstance.StepInv: steps are sequentially consistent; the memory order of the atomic operations is not modelled.
- LazyInstance.ExitDeletesInstance: OnExit runs while no thread is inside the object, as its comment demands.
- ObserverListThreadSafe.StepInv: calls without a message loop, which do nothing, and arguments of the notified method are not modelled; a context's memory is not reused under the same identity, and a vector with the largest size_t of observers does not grow.
- CallbackList.CallbackListBase.Compact: the removal callback is counted, and what it does is not modelled.
- IdMap.IDMap.Remove: deletion of owned objects is not modelled; nor are additions during an iteration, which may rehash the table, and assignment of iterators, which names a field that does not exist.
- Pickle.PickleIterator.ReadField: long, float and double fields and the StringPiece variants, which differ only in the result type, are not modelled; the typed reads are one method with a case for each.
- Pickle.Pickle.Resize: a failed allocation ends the process and is not modelled; operator= is not modelled.
- CommandLine.ArgumentsRoundTrip: the program name and whitespace trimming on parsing are left out; the reading of `argv` back into a CommandLine is not modelled.
- Values.DictionaryValue.Set: child pointers that Get hands out alias the tree in the source; the model holds the tree as a value, so updates through such pointers are not captured. Numbers, strings and binary values are plain values, with finite doubles as reals; other than in Equals the iteration order of std::map is left open.
- ListValue operations and typed getters: they would add only easy members.
- TrackedDeaths.DeathData.RecordDeath: updates racing with a snapshot from another thread, which the code accepts as imprecise, are not modelled; nor are births and their balance.
- Vlog: parsing of the command-line switches into patterns and levels.
- Files of `src/base` and `src/crypto` that wrap operating-system or library calls.
