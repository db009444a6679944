# Monte Carlo Arnoldi's method for slab criticality, modelled in Dafny

The modelled program estimates the fundamental eigenvalue (k) and the fission
source of a one-dimensional slab reactor. It runs Arnoldi's method, with
explicit or implicit restarts, over a linear operator that Monte Carlo
particle transport evaluates. It also runs the classic power method over the
same transport. This project models the core of that program in Dafny and
proves properties of the model:

- **Random numbers.**
  - The MCNP linear congruential generator, with its skip-ahead by repeated squaring (`mcnp_random.dfy`, on `mod_arith.dfy`).
  - The 32-bit Mersenne Twister of RandomLib: the in-place twist and its reverse, seeding by the seed_seq mixing, and stepping the count in whole batches (`mt19937.dfy`).
  - The seed helpers: masking, the checksum, the saved-word format, and seed strings (`random_seed.dfy`).
- **Geometry.**
  - The 1-D Cartesian mesh with its zones, nodes, corners, ghost elements and lookups (`mesh.dfy`).
  - The range-checked iterator (`iterator.dfy`).
  - Fields, with one value per mesh element (`field.dfy`).
- **Fission sources.**
  - The histogram source (`hist_source.dfy`).
  - The bank of fission sites (`bank_source.dfy`).
  - The linear-in-space source, built per zone from `LinearSpace` (`linear_space.dfy`, `linear_source.dfy`).
  - Shared running-sum lemmas (`sums.dfy`).
- **Transport.**
  - Russian roulette.
  - The collision loop of one history.
  - The transport of a batch of histories (`markov.dfy`).
- **Linear algebra and statistics.**
  - Arnoldi's method: factorisation, Ritz pairs ordered by real and then imaginary part, and explicit and implicit restarts (`arnoldi.dfy`, on `vectors.dfy`).
  - The statistics helpers (`utilities.dfy`).
  - The test matrices the eigensolvers are checked against (`matrices.dfy`).
- **Drivers.**
  - The bookkeeping of Monte Carlo Arnoldi's method (`arnoldi_mc.dfy`).
  - The power method (`power.dfy`).
  - Both share the per-cycle records (`cycle_records.dfy`).
- **Plotting support.** The logic of the gnuplot wrapper: its tokenizer, the style choice, the plot counter and the shared temporary-file count (`gnuplot.dfy`).

Objects whose fields the program updates in place are Dafny classes. Their
methods are proved against specification functions, and lemmas prove
properties of those functions. Floating-point numbers are exact reals, and
the fixed-width integers that matter are written out with their wrap-around
or saturation. Random draws, clocks, the file system and the numerical
kernels (the dense eigensolver, shifted QR, the Euclidean norm) enter the
model as parameters.

Where the program's documentation and its code disagree, the model
follows the code. In particular:

- Restarted Arnoldi's method restarts at least once even when zero restarts are asked for, because the restart loop is a do-while (Code/trunk/cpp/LinearAlgebra/Arnoldi.h:149-176).
- The bank source reads the sign of a drawn site's weight from the cumulative distribution rather than from the bin. For draws in [0, 1), every drawn weight is therefore +1 (`BankSources.DrawnWeightsPositive`).
- The corner of node 0 is linked through an unsigned wrap-around in the mesh connectivity. The model states the resulting links directly.


## Model

| member | source | states |
|---|---|---|
| McnpRandom.Next | Code/branches/Pre-Prospectus/cpp/src/mcnp_random.cpp:228 | one draw maps the seed to (mult·seed + add) mod 2^bits, always below the modulus |
| McnpRandom.IterateIsAffine | Code/branches/Pre-Prospectus/cpp/src/mcnp_random.cpp:242-252 | n single draws from a reduced seed equal one application of the n-step affine map (mult^n, offset) the skip-ahead builds |
| McnpRandom.MultAdd | Code/branches/Pre-Prospectus/cpp/src/mcnp_random.cpp:245-250 | the multiplier of a+b draws is the product of the multipliers of a and of b draws |
| McnpRandom.IncrAdd | Code/branches/Pre-Prospectus/cpp/src/mcnp_random.cpp:245-250 | the offset of a+b draws is the offset of b draws applied after the offset of a draws |
| McnpRandom.IterateAdd | Code/branches/Pre-Prospectus/cpp/src/mcnp_random.cpp:236-252 | skipping a draws and then b draws lands on the same seed as skipping a+b draws |
| McnpRandom.IterateReduces | Code/branches/Pre-Prospectus/cpp/src/mcnp_random.cpp:252 | once a draw is taken, an unreduced seed gives the same sequence as its residue |
| McnpRandom.Normalized | Code/branches/Pre-Prospectus/cpp/src/mcnp_random.cpp:240-241 | a skip count raised by whole periods until non-negative and masked is below the modulus and, when the period divides the modulus, congruent to the original count modulo the period |
| McnpRandom.ToLong | Code/branches/Pre-Prospectus/cpp/src/mcnp_random.cpp:344 | an unsigned 64-bit product converted to the signed LONG stays in the signed range and is unchanged below 2^63 |
| McnpRandom.ToLongResidue | Code/branches/Pre-Prospectus/cpp/src/mcnp_random.cpp:344 | the signed reinterpretation keeps the residue modulo every 2^bits with bits ≤ 64 |
| McnpRandom.MaskedAffine | Code/branches/Pre-Prospectus/cpp/src/mcnp_random.cpp:246-252 | a product and sum computed in wrapping unsigned 64-bit arithmetic and then masked equal the exact value modulo 2^bits |
| McnpRandom.MaskedCompose | Code/branches/Pre-Prospectus/cpp/src/mcnp_random.cpp:246-250 | the masked 64-bit updates of gen, inc and c compose the a-step and b-step maps into the (a+b)-step map |
| McnpRandom.StandardWellFormed | Code/branches/Pre-Prospectus/cpp/src/mcnp_random.cpp:134-143 | table entry i is generator i+1 with 48 or 63 bits, an odd multiplier below its modulus and a positive stride |
| McnpRandom.Load | Code/branches/Pre-Prospectus/cpp/src/mcnp_random.cpp:293-307 | selecting a generator sets modulus 2^bits, mask 2^bits−1, period 2^(bits−2) for a multiplicative generator and 2^bits otherwise, and replaces the stride only when the new one is positive |
| McnpRandom.Rng.constructor | Code/branches/Pre-Prospectus/cpp/src/mcnp_random.cpp:152-176 | the static initial values: generator 1, 48 bits, period 2^46, seed 19073486328125, every counter zero |
| McnpRandom.Rng.Rang | Code/branches/Pre-Prospectus/cpp/src/mcnp_random.cpp:222-232 | one draw advances the seed by the recurrence, adds one to the count (wrapping at 2^64) and returns seed/2^bits in [0, 1) |
| McnpRandom.Jump | Code/branches/Pre-Prospectus/cpp/src/mcnp_random.cpp:242-251 | the binary-powering loop in masked 64-bit arithmetic yields exactly mult^n and the n-step offset |
| McnpRandom.Rng.SkipAhead | Code/branches/Pre-Prospectus/cpp/src/mcnp_random.cpp:236-255 | the skip-ahead equals stepping the recurrence, one draw at a time, the normalised number of draws from the reduced seed |
| McnpRandom.Rng.Start | Code/branches/Pre-Prospectus/cpp/src/mcnp_random.cpp:293-363 | a generator is loaded, the seed and stride overridden by positive inputs, the base seed advanced (part1−1)·stride draws when part1 > 1, and every counter cleared |
| McnpRandom.Rng.InitProblem | Code/branches/Pre-Prospectus/cpp/src/mcnp_random.cpp:258-365 | succeeds exactly for a generator index in 1..7, changing nothing otherwise, and then starts as Start does |
| McnpRandom.Rng.InitParticle | Code/branches/Pre-Prospectus/cpp/src/mcnp_random.cpp:368-378 | the particle seed is the base seed advanced nps·stride draws, the count is zero and NPS is nps |
| McnpRandom.Rng.QueryFirst | Code/branches/Pre-Prospectus/cpp/src/mcnp_random.cpp:412-415 | the seed particle nps would start from, computed without changing any state |
| McnpRandom.Rng.Set | Code/branches/Pre-Prospectus/cpp/src/mcnp_random.cpp:381-393 | each counter key overwrites that counter only; "seed" restarts the stream from the new base seed with count and NPS zero; other keys change nothing, and Query then reads back the value set |
| McnpRandom.Rng.Query | Code/branches/Pre-Prospectus/cpp/src/mcnp_random.cpp:396-410 | each known key reads its parameter or counter; an unknown key reads 0 |
| McnpRandom.Rng.UpdateStats | Code/branches/Pre-Prospectus/cpp/src/mcnp_random.cpp:418-435 | the count is added to the total, the maximum and its particle are updated when exceeded, the stride counter counts particles that drew more than a stride, and count and NPS are cleared |
| McnpRandom.ReferenceSeeds | Code/branches/Pre-Prospectus/cpp/src/mcnp_random.cpp:182-187 | the recurrence reproduces the first reference seeds of generators 1 and 2 drawn from seed 1 |
| Mt19937.RecoverTwist | Code/trunk/cpp/RandomLib/Random.cpp:645-650 | the reverse step rebuilds, from a new word xor its partner, exactly the y = upper bit of word i and lower bits of word i+1 that the forward step twisted |
| Mt19937.NextStateAt | Code/trunk/cpp/RandomLib/Random.cpp:617-626 | every word of the next state is the twist of words i, i+1 and i+M of the sequence old-then-new that the in-place loops read |
| Mt19937.ConsistentNext | Code/trunk/cpp/RandomLib/Random.cpp:596-626 | after a forward batch the low bits of word 0 agree with the value the last word and word M−1 determine |
| Mt19937.PrevNext | Code/trunk/cpp/RandomLib/Random.cpp:653-666 | a reverse batch undoes a forward batch on every state whose word 0 is consistent |
| Mt19937.ConsistentPrev | Code/trunk/cpp/RandomLib/Random.cpp:653-666 | after a reverse batch word 0 is consistent |
| Mt19937.PrevNextStates | Code/trunk/cpp/RandomLib/Random.cpp:617-666 | c reverse batches undo c forward batches |
| Mt19937.AdvanceBack | Code/trunk/cpp/RandomLib/Random.cpp:419-444 | moving d batches forward and then d back returns to the starting state |
| Mt19937.KnuthAt | Code/trunk/cpp/RandomLib/Random.cpp:254-261 | every state word after the first is 1812433253·(r xor r>>30) + k of the word before, modulo 2^32 |
| Mt19937.EmptySeedState | Code/trunk/cpp/RandomLib/Random.cpp:252-262 | with an empty seed the state is the plain Knuth fill from 5489 |
| Mt19937.InitNonZero | Code/trunk/cpp/RandomLib/Random.cpp:397-405 | Init never leaves all 19937 significant bits zero |
| Mt19937.InitConsistent | Code/trunk/cpp/RandomLib/Random.cpp:407-413 | Init leaves the low bits of word 0 consistent with the rest of the state |
| Mt19937.SeedSumsOk | Code/trunk/cpp/RandomLib/Random.cpp:451-456 | folding the seed words into the checksum fails exactly when some word does not fit in 32 bits |
| Mt19937.CheckAccepts | Code/trunk/cpp/RandomLib/Random.cpp:446-488 | the check succeeds exactly for a known version, 32-bit seed words, a stride in 1..UNINIT/2 and, once initialised, a pointer below N+stride, a nonzero and consistent state |
| Mt19937.CheckErrors | Code/trunk/cpp/RandomLib/Random.cpp:446-458 | an unknown version is reported first, and an illegal seed word exactly when the version is known and some word exceeds 32 bits |
| Mt19937.InitPassesCheck | Code/trunk/cpp/RandomLib/Random.cpp:391-488 | a freshly seeded and initialised generator passes the check |
| Mt19937.Generator.constructor | Code/branches/OldGeometry/cpp/RandomLib/MT19937.hpp:175-180 | a generator built from a vector keeps its words masked to 32 bits, uninitialised, stride 1 |
| Mt19937.Generator.Reset | Code/branches/OldGeometry/cpp/RandomLib/MT19937.hpp:304-308 | back to the just-seeded sequence: pointer UNINIT, stride 1, count 0, seed kept |
| Mt19937.Generator.ReseedVector | Code/trunk/cpp/RandomLib/RandomSeed.hpp:73-80 | the seed becomes the vector's words masked to 32 bits, then Reset |
| Mt19937.Generator.ReseedWord | Code/trunk/cpp/RandomLib/RandomSeed.hpp:98-104 | the seed becomes the single masked word, then Reset |
| Mt19937.Generator.ReseedString | Code/trunk/cpp/RandomLib/RandomSeed.hpp:112-117 | the seed becomes the digit runs read from the string, then Reset |
| Mt19937.Generator.Step | Code/trunk/cpp/RandomLib/Random.cpp:612-614 | one in-place step replaces word i by the twist of words i, j and k and changes nothing else |
| Mt19937.Generator.TwistHead | Code/trunk/cpp/RandomLib/Random.cpp:623 | the first N−M steps produce the first N−M words of the next state, the rest still old |
| Mt19937.Generator.TwistTail | Code/trunk/cpp/RandomLib/Random.cpp:624 | the steps up to N−2, whose partner has wrapped to a new word, extend that prefix to N−1 words |
| Mt19937.Generator.TwistRound | Code/trunk/cpp/RandomLib/Random.cpp:621-625 | one pass of the three loops turns the state into NextState of the old state |
| Mt19937.Generator.NextBatch | Code/trunk/cpp/RandomLib/Random.cpp:617-627 | count forward batches: rounds rises by count and the state is count applications of NextState |
| Mt19937.Generator.RevStepAt | Code/trunk/cpp/RandomLib/Random.cpp:645-650 | one reverse step writes word i from the upper bit of the carried y and the lower bits of the recovered one, and carries the new y |
| Mt19937.Generator.RevRound | Code/trunk/cpp/RandomLib/Random.cpp:657-665 | one pass of the reverse loops turns the state into PrevState of the old state |
| Mt19937.Generator.PreviousBatch | Code/trunk/cpp/RandomLib/Random.cpp:653-666 | count reverse batches: rounds falls by count and the state is count applications of PrevState |
| Mt19937.Generator.KnuthFill | Code/trunk/cpp/RandomLib/Random.cpp:253-261 | the first loop fills every word by Knuth's recurrence from 5489 plus the seed length |
| Mt19937.Generator.MixSeed | Code/trunk/cpp/RandomLib/Random.cpp:262-270 | the first mixing pass takes max(N, s) steps, folding seed word j and j into state word i1, both indices wrapping |
| Mt19937.Generator.MixIndex | Code/trunk/cpp/RandomLib/Random.cpp:271-278 | the second mixing pass takes N more steps, subtracting the state index |
| Mt19937.Generator.SeedToState | Code/trunk/cpp/RandomLib/Random.cpp:245-280 | the state the seed vector determines: the Knuth fill, then for a nonempty seed the two mixing passes |
| Mt19937.Generator.FixUp | Code/trunk/cpp/RandomLib/Random.cpp:397-413 | word 0 keeps only its top bit, is set to the top bit when every word is zero, and gets the consistent low bits |
| Mt19937.Generator.Init | Code/trunk/cpp/RandomLib/Random.cpp:391-417 | the state is the seeded and fixed-up state, rounds −1 and pointer N, so the count is 0 |
| Mt19937.Generator.StepCount | Code/trunk/cpp/RandomLib/Random.cpp:419-444 | the count moves by exactly n (C truncating division of the new count by N), the pointer ends in 0..N, and the state is the start state advanced by the batches done, forward or back |
| Mt19937.Generator.Next | Code/trunk/cpp/RandomLib/Random.cpp:603-609 | an uninitialised generator is initialised, the batches the pointer ran past are done, and the pointer ends below N with the count unchanged |
| Mt19937.Generator.Check | Code/trunk/cpp/RandomLib/Random.cpp:446-488 | the method returns exactly the checksum, or the first error, of CheckState over the generator's fields |
| RandomSeed.SeedMask | Code/trunk/cpp/RandomLib/RandomSeed.hpp:332 | only the low 32 bits of a seed word are kept: below 2^32, unchanged when already below, congruent modulo 2^32 |
| RandomSeed.CheckSum32 | Code/trunk/cpp/RandomLib/RandomSeed.hpp:340-345 | one checksum step rotates the check left by one bit and adds the word, and is undone by subtracting and rotating back |
| RandomSeed.CheckSumInjective | Code/trunk/cpp/RandomLib/RandomSeed.hpp:340-345 | two checks that agree after the same word agreed before it |
| RandomSeed.CheckSum64 | Code/trunk/cpp/RandomLib/RandomSeed.hpp:348-352 | a 64-bit word is folded in as its high half, then its low half |
| RandomSeed.Words64 | Code/trunk/cpp/RandomLib/Random.cpp:226-232 | a 64-bit word is written as two 32-bit words, high half first, that recombine to it |
| RandomSeed.Bytes32 | Code/trunk/cpp/RandomLib/Random.cpp:190-196 | the four bytes written are the word in network order, most significant first |
| RandomSeed.Write32Bin | Code/trunk/cpp/RandomLib/Random.cpp:186-196 | a binary write appends four bytes and reading them back gives the word |
| RandomSeed.BytesRead | Code/trunk/cpp/RandomLib/Random.cpp:209-217 | reading four bytes written for x gives x and leaves what follows |
| RandomSeed.Read32Bin | Code/trunk/cpp/RandomLib/Random.cpp:209-217 | a binary read fails exactly on fewer than four bytes and otherwise consumes four |
| RandomSeed.Write64Bin | Code/trunk/cpp/RandomLib/Random.cpp:226-232 | a 64-bit binary write appends eight bytes that read back as the word |
| RandomSeed.Read64Bin | Code/trunk/cpp/RandomLib/Random.cpp:234-243 | a 64-bit binary read fails exactly on fewer than eight bytes |
| RandomSeed.TextSeparator | Code/trunk/cpp/RandomLib/Random.cpp:198-203 | no separator before the first word, a newline before every sixth, a space otherwise |
| RandomSeed.Write32Text | Code/trunk/cpp/RandomLib/Random.cpp:197-205 | a text write appends the separator and the decimal digits, raises the word counter by one, and reads back as the word |
| RandomSeed.Decimal | Code/trunk/cpp/RandomLib/Random.cpp:204 | the decimal digits of n, most significant first, with no leading zero |
| RandomSeed.ReadDecimalAfterSpace | Code/trunk/cpp/RandomLib/Random.cpp:219-222 | white space followed by the digits of n reads back as n |
| RandomSeed.DecimalValue | Code/trunk/cpp/RandomLib/Random.cpp:204 | the digits written for n have the value n |
| RandomSeed.StrToUL | Code/trunk/cpp/RandomLib/RandomSeed.hpp:208-218 | strtoul from a decimal digit: "0x" and a hex digit select base 16, a leading 0 base 8, otherwise base 10; the value saturates at ULONG_MAX and the end follows the last digit |
| RandomSeed.FindDigitFirst | Code/trunk/cpp/RandomLib/Random.cpp:174 | find_first_of("0123456789") finds the first digit, and none when no digit is left |
| RandomSeed.NextWord | Code/trunk/cpp/RandomLib/Random.cpp:174-178 | the next seed word is masked to 32 bits and reading moves past its digits |
| RandomSeed.ParseNoDigits | Code/trunk/cpp/RandomLib/Random.cpp:175-176 | a string without decimal digits gives an empty seed |
| RandomSeed.StringToVector | Code/trunk/cpp/RandomLib/Random.cpp:166-181 | the loop reads exactly ParseSeeds of the string, every word below 2^32 |
| RandomSeed.SeedsBelow | Code/trunk/cpp/RandomLib/Random.cpp:177 | every word read fits in 32 bits |
| RandomSeed.NextSeed | Code/trunk/cpp/RandomLib/Random.cpp:174-178 | one turn of the loop: no digit ends the parse, otherwise the masked word is followed by the parse of the rest |
| RandomSeed.VectorToString | Code/trunk/cpp/RandomLib/RandomSeed.hpp:194-206 | "[" followed by the masked words in decimal separated by commas, then "]" |
| RandomSeed.JoinSnoc | Code/trunk/cpp/RandomLib/RandomSeed.hpp:198-203 | appending a word appends a comma (except first) and its masked decimal digits |
| RandomSeed.MaskAll | Code/trunk/cpp/RandomLib/RandomSeed.hpp:78 | every word of the vector masked to its low 32 bits |
| RandomSeed.StrToULDecimal | Code/trunk/cpp/RandomLib/Random.cpp:177 | strtoul reads back the decimal digits of n followed by a non-digit |
| RandomSeed.ParseJoined | Code/trunk/cpp/RandomLib/RandomSeed.hpp:194-206 | parsing a separator, the comma-joined words and "]" gives back the masked words |
| RandomSeed.SeedStringRoundTrip | Code/trunk/cpp/RandomLib/RandomSeed.hpp:194-206 | printing a seed vector and reading the string back yields the seed words masked to 32 bits |
| RandomSeed.ParseExamples | Code/trunk/cpp/RandomLib/RandomSeed.hpp:210-217 | "2006-04-08" reads as [2006, 4, 0, 8] and "012 10 0xa" as [10, 10, 10], as documented |
| CheckedIterators.Incremented | Code/trunk/cpp/Geometry/Misc/Iterator.hh:354-363 | refused with CheckedIteratorLacksContainer without a container and IncrementBeyondRange at end(); otherwise one step forward in the same container, staying in range |
| CheckedIterators.Decremented | Code/trunk/cpp/Geometry/Misc/Iterator.hh:378-388 | refused without a container and with DecrementBeyondRange at begin(); otherwise one step back, staying in range |
| CheckedIterators.Advanced | Code/trunk/cpp/Geometry/Misc/Iterator.hh:405-417 | succeeds exactly when the target offset lies in [begin(), end()], moving by n; otherwise AdvanceBeyondRange(n) or the missing-container error |
| CheckedIterators.Dereferenced | Code/trunk/cpp/Geometry/Misc/Iterator.hh:316-326 | refused without a container and at the positions just before begin() and at end(); an in-range dereference reads an element index below the size |
| CheckedIterators.DistanceTo | Code/trunk/cpp/Geometry/Misc/Iterator.hh:427-432 | advancing by the distance reaches the other iterator's offset whenever that offset is in range |
| CheckedIterators.IteratorAssigned | Code/trunk/cpp/Geometry/Misc/Iterator.hh:205-220 | the other iterator's container is always taken; the assignment succeeds exactly when the other offset is in range, else AssignmentOutOfRange with the old offset |
| CheckedIterators.BaseAssigned | Code/trunk/cpp/Geometry/Misc/Iterator.hh:247-263 | refused without a container; succeeds exactly for an offset in [begin(), end()], else AssignmentOutOfRange |
| CheckedIterators.ConstructAt | Code/trunk/cpp/Geometry/Misc/Iterator.hh:147-161 | construction over a container at offset p succeeds exactly when p is in range, else AssignmentOutOfRange |
| CheckedIterators.IncrementThenDecrement | Code/trunk/cpp/Geometry/Misc/Iterator.hh:354-388 | a successful increment is undone by a decrement and the other way round |
| CheckedIterators.AdvanceSteps | Code/trunk/cpp/Geometry/Misc/Iterator.hh:354-417 | advance(1) and advance(-1) move as increment and decrement do, and advance(n) is undone by advance(-n) |
| CheckedIterators.DistanceEqual | Code/trunk/cpp/Geometry/Misc/Iterator.hh:427-432 | iterators over one container are equal exactly at distance zero; distance is antisymmetric |
| CheckedIterators.WalkToEnd | Code/trunk/cpp/Geometry/Misc/Iterator.hh:354-363 | from an in-range position, as many increments as elements remain all succeed and land at offset pos + steps |
| CheckedIterators.WalkPastEnd | Code/trunk/cpp/Geometry/Misc/Iterator.hh:359-360 | one increment more than the remaining elements is refused with IncrementBeyondRange |
| CheckedIterators.CheckedIterator.constructor | Code/trunk/cpp/Geometry/Misc/Iterator.hh:120-122 | the default iterator has no container and a default base |
| CheckedIterators.CheckedIterator.Over | Code/trunk/cpp/Geometry/Misc/Iterator.hh:128-131 | an iterator over a container with a default base iterator |
| CheckedIterators.CheckedIterator.Copy | Code/trunk/cpp/Geometry/Misc/Iterator.hh:177-183 | the unchecked copy has the same container and offset |
| CheckedIterators.CheckedIterator.Increment | Code/trunk/cpp/Geometry/Misc/Iterator.hh:354-363 | the new state is Incremented of the old, or the error is returned and the state is unchanged |
| CheckedIterators.CheckedIterator.Decrement | Code/trunk/cpp/Geometry/Misc/Iterator.hh:378-388 | the new state is Decremented of the old, or the error and no change |
| CheckedIterators.CheckedIterator.Advance | Code/trunk/cpp/Geometry/Misc/Iterator.hh:405-417 | the new state is Advanced of the old, or the error and no change |
| CheckedIterators.CheckedIterator.Dereference | Code/trunk/cpp/Geometry/Misc/Iterator.hh:316-326 | returns Dereferenced of the current state |
| CheckedIterators.CheckedIterator.AssignIterator | Code/trunk/cpp/Geometry/Misc/Iterator.hh:205-220 | the new state and the error are IteratorAssigned of the old states |
| CheckedIterators.CheckedIterator.AssignBase | Code/trunk/cpp/Geometry/Misc/Iterator.hh:247-263 | the new state is BaseAssigned of the old, or the error and no change |
| CheckedIterators.CheckedIterator.SetContainer | Code/trunk/cpp/Geometry/Misc/Iterator.hh:280-283 | the container is replaced without any check and the offset is kept |
| CheckedIterators.NewAt | Code/trunk/cpp/Geometry/Misc/Iterator.hh:147-161 | a fresh iterator at ConstructAt's state, or ConstructAt's error |
| Fields.Field.Filled | Code/trunk/cpp/Geometry/Field/Field.hh:142-162 | one value per element of the centering, every one equal to the fill value |
| Fields.Field.Copy | Code/trunk/cpp/Geometry/Field/Field.hh:224-228 | the same element count and a copy of the data |
| Fields.Field.At | Code/trunk/cpp/Geometry/Field/Field.hh:273-312 | the value of element id exactly when id is below the element count, else FieldRangeError(id) |
| Fields.Field.Set | Code/trunk/cpp/Geometry/Field/Field.hh:273-287 | writing through operator[] changes element id only and At then reads the new value; an out-of-range id changes nothing and is reported |
| Fields.Field.Assign | Code/trunk/cpp/Geometry/Field/Field.hh:235-239 | only the data is copied; the mesh stays |
| Fields.Field.AssignConverted | Code/trunk/cpp/Geometry/Field/Field.hh:249-260 | the source's values overwrite the front of the data element by element; the size is kept |
| Fields.Field.Size | Code/trunk/cpp/Geometry/Field/Field.hh:319-332 | size and max_size are the element count of the centering |
| Fields.Field.Swap | Code/trunk/cpp/Geometry/Field/Field.hh:347-350 | the two fields exchange data |
| Fields.FromContainer | Code/trunk/cpp/Geometry/Field/Field.hh:173-190 | built exactly when the container holds one value per element, else WrongSizedField(expected, given) |
| CartesianMesh.FirstNonPositive | Code/trunk/cpp/Geometry/CartesianMesh/OneD/CartesianMesh1D.cc:160-163 | none exactly when every length is positive; otherwise the index of the first non-positive length |
| CartesianMesh.UniformChecks | Code/trunk/cpp/Geometry/CartesianMesh/OneD/CartesianMesh1D.cc:125-134 | accepts exactly a positive length, a positive area and at least one zone, checking length, area and count in that order |
| CartesianMesh.LengthsChecksAccept | Code/trunk/cpp/Geometry/CartesianMesh/OneD/CartesianMesh1D.cc:148-168 | the zone-length constructor accepts exactly a non-empty list of positive lengths over a positive area |
| CartesianMesh.LengthsChecksReject | Code/trunk/cpp/Geometry/CartesianMesh/OneD/CartesianMesh1D.cc:159-167 | with a positive area and total, a non-positive zone is reported with the index and length of the first one |
| CartesianMesh.LengthsChecksAsWritten | Code/trunk/cpp/Geometry/CartesianMesh/OneD/CartesianMesh1D.cc:148-168 | the checks as the code writes them: the reported bad zone id is the negated distance stored in the unsigned 32-bit id type, so it lies in 0 .. 2^32 - 1 |
| CartesianMesh.NegatedZoneIndex | Code/trunk/cpp/Geometry/CartesianMesh/OneD/CartesianMesh1D.cc:165-166 | the written and the corrected checks accept the same inputs and agree except for the bad zone's id: it plus the true index is a multiple of 2^32, and it equals the index only for zones 0 and 2^31; lengths [2, -1] give zone 1 against 4294967295 |
| CartesianMesh.UniformSum | Code/trunk/cpp/Geometry/CartesianMesh/OneD/CartesianMesh1D.cc:57 | n zones of length L/n add up to L |
| CartesianMesh.RealCounts | Code/trunk/cpp/Geometry/CartesianMesh/OneD/CartesianMesh1D.cc:174-207 | n zones, n+1 nodes and 2n corners, each element's id equal to its index |
| CartesianMesh.CornersOfZone | Code/trunk/cpp/Geometry/CartesianMesh/OneD/CartesianMesh1D.cc:216-235 | the two corners of zone i lie in zone i, at its left and right node |
| CartesianMesh.NodesOfZone | Code/trunk/cpp/Geometry/CartesianMesh/OneD/CartesianMesh1D.cc:216-278 | the left node of zone i has zone i on its right and the right node has it on its left |
| CartesianMesh.ZonesOfNode | Code/trunk/cpp/Geometry/CartesianMesh/OneD/CartesianMesh1D.cc:238-292 | only the first node lacks a left zone and only the last a right one; every link of a node points back at it |
| CartesianMesh.RealNodeX | Code/trunk/cpp/Geometry/CartesianMesh/OneD/CartesianMesh1D.cc:186-199 | node i sits at the left position plus the first i zone lengths |
| CartesianMesh.NodePositions | Code/trunk/cpp/Geometry/CartesianMesh/OneD/CartesianMesh1D.cc:186-199 | the first node is at the left position, consecutive nodes are one zone length apart, the last is at the left position plus the mesh length |
| CartesianMesh.NodesIncreasing | Code/trunk/cpp/Geometry/CartesianMesh/OneD/CartesianMesh1D.cc:186-199 | with positive zone lengths the node positions strictly increase |
| CartesianMesh.RightEndsSorted | Code/trunk/cpp/Geometry/CartesianMesh/OneD/CartesianMesh1D.hh:272-279 | the zones' right ends, which getZone(x) searches, are sorted and end at the left position plus the length |
| CartesianMesh.LeftGhostZoneAt | Code/trunk/cpp/Geometry/CartesianMesh/OneD/CartesianMesh1D.cc:309-324 | left ghost zone k has id n+k and mirrors zone k (ghost_left) or n-1-k, with its length and area |
| CartesianMesh.RightGhostZoneAt | Code/trunk/cpp/Geometry/CartesianMesh/OneD/CartesianMesh1D.cc:367-384 | right ghost zone k has id n+left+k and mirrors zone n-1-k (ghost_right) or k |
| CartesianMesh.GhostZoneLayout | Code/trunk/cpp/Geometry/CartesianMesh/OneD/CartesianMesh1D.cc:309-384 | ghost zone ids continue the real ids, left ones first, each mirroring a real zone's length and area |
| CartesianMesh.GhostLayout | Code/trunk/cpp/Geometry/CartesianMesh/OneD/CartesianMesh1D.cc:300-430 | the ids of all ghost zones, nodes and corners continue the real ids |
| CartesianMesh.GhostNodeIds | Code/trunk/cpp/Geometry/CartesianMesh/OneD/CartesianMesh1D.cc:329-411 | ghost node k has id (n+1)+k |
| CartesianMesh.GhostCornerIds | Code/trunk/cpp/Geometry/CartesianMesh/OneD/CartesianMesh1D.cc:351-429 | ghost corner k has id 2n+k |
| CartesianMesh.LeftGhostSteps | Code/trunk/cpp/Geometry/CartesianMesh/OneD/CartesianMesh1D.cc:326-349 | each left ghost node lies one left ghost zone length left of the previous one, starting from the first real node |
| CartesianMesh.RightGhostSteps | Code/trunk/cpp/Geometry/CartesianMesh/OneD/CartesianMesh1D.cc:386-411 | each right ghost node lies one right ghost zone length right of the previous one, starting from the last real node |
| CartesianMesh.GhostNodePositions | Code/trunk/cpp/Geometry/CartesianMesh/OneD/CartesianMesh1D.cc:326-411 | both sides over the whole ghost node container |
| CartesianMesh.BuiltLayout | Code/trunk/cpp/Geometry/CartesianMesh/OneD/CartesianMesh1D.cc:85-113 | elements built from non-empty lengths with fewer ghosts than zones satisfy the mesh layout; ghost containers exist exactly when ghosts were asked for |
| CartesianMesh.FirstAtLeastSpec | Code/trunk/cpp/Geometry/CartesianMesh/OneD/CartesianMesh1D.hh:278 | the reference scan stops at the first entry not below x |
| CartesianMesh.FirstAtLeastUnique | Code/trunk/cpp/Geometry/CartesianMesh/OneD/CartesianMesh1D.hh:278 | any index with the lower_bound properties is the scan's result |
| CartesianMesh.LowerBound | Code/trunk/cpp/Geometry/CartesianMesh/OneD/CartesianMesh1D.hh:278 | binary search on sorted data: every entry before the result is below x, every entry from it on is not, and it equals the linear scan |
| CartesianMesh.Mesh1D.constructor | Code/trunk/cpp/Geometry/CartesianMesh/OneD/CartesianMesh1D.cc:85-113 | the mesh holds exactly the elements built from its inputs, with the given length, area, ghost counts and left position |
| CartesianMesh.Mesh1D.CreateGeometricElements | Code/trunk/cpp/Geometry/CartesianMesh/OneD/CartesianMesh1D.cc:174-207 | pushes zone i with its length and the area, node i at the running position and 2n corners; nothing else changes |
| CartesianMesh.Mesh1D.ConnectGeometricElements | Code/trunk/cpp/Geometry/CartesianMesh/OneD/CartesianMesh1D.cc:210-293 | sets every zone, node and corner link as LinkZones, LinkNodes and LinkCorners say |
| CartesianMesh.Mesh1D.CreateGhostElements | Code/trunk/cpp/Geometry/CartesianMesh/OneD/CartesianMesh1D.cc:300-430 | the ghost containers become the left then right ghost zones, nodes and corners |
| CartesianMesh.Mesh1D.PushLeftGhostZones | Code/trunk/cpp/Geometry/CartesianMesh/OneD/CartesianMesh1D.cc:309-324 | the loop builds exactly LeftGhostZones |
| CartesianMesh.Mesh1D.PushRightGhostZones | Code/trunk/cpp/Geometry/CartesianMesh/OneD/CartesianMesh1D.cc:367-384 | the loop builds exactly RightGhostZones |
| CartesianMesh.Mesh1D.PushLeftGhostNodes | Code/trunk/cpp/Geometry/CartesianMesh/OneD/CartesianMesh1D.cc:325-349 | the loop builds exactly LeftGhostNodes, positions included |
| CartesianMesh.Mesh1D.PushRightGhostNodes | Code/trunk/cpp/Geometry/CartesianMesh/OneD/CartesianMesh1D.cc:385-411 | the loop builds exactly RightGhostNodes, positions included |
| CartesianMesh.Mesh1D.PushLeftGhostCorners | Code/trunk/cpp/Geometry/CartesianMesh/OneD/CartesianMesh1D.cc:350-365 | the loop builds exactly LeftGhostCorners |
| CartesianMesh.Mesh1D.PushRightGhostCorners | Code/trunk/cpp/Geometry/CartesianMesh/OneD/CartesianMesh1D.cc:412-429 | the loop builds exactly RightGhostCorners |
| CartesianMesh.Mesh1D.Counts | Code/trunk/cpp/Geometry/CartesianMesh/CartesianMesh_base.hh:98-152 | counts including ghosts: n+g zones, n+1+g nodes, 2(n+g) corners, as many ghost nodes as ghost zones and two ghost corners each |
| CartesianMesh.Mesh1D.Volume | Code/trunk/cpp/Geometry/CartesianMesh/OneD/CartesianMesh1D.hh:156-159 | the volume of a valid mesh is positive |
| CartesianMesh.Mesh1D.GetZone | Code/trunk/cpp/Geometry/CartesianMesh/OneD/CartesianMesh1D.hh:187-197 | a zone, real or ghost, whose id is the one asked for, exactly when the id is below the zone count, else ZoneDoesNotExist |
| CartesianMesh.Mesh1D.GetNode | Code/trunk/cpp/Geometry/CartesianMesh/OneD/CartesianMesh1D.hh:205-216 | the node with that id exactly when it is below the node count, else NodeDoesNotExist |
| CartesianMesh.Mesh1D.GetCorner | Code/trunk/cpp/Geometry/CartesianMesh/OneD/CartesianMesh1D.hh:225-235 | the corner with that id exactly when it is below the corner count, else CornerDoesNotExist |
| CartesianMesh.Mesh1D.ZoneAt | Code/trunk/cpp/Geometry/CartesianMesh/OneD/CartesianMesh1D.hh:273-279 | the first zone whose right node is not left of x; on a mesh starting at a non-negative position it is a real zone |
| CartesianMesh.Mesh1D.SweepEnds | Code/trunk/cpp/Geometry/CartesianMesh/OneD/CartesianMesh1D.hh:346-362 | a sweep runs from one end of the zones to the other, left to right exactly when mu > 0 |
| CartesianMesh.NewMesh | Code/trunk/cpp/Geometry/CartesianMesh/OneD/CartesianMesh1D.cc:85-168 | refused exactly when the checks fail, with their error; otherwise a mesh of length equal to the sum of the zone lengths, built from them |
| CartesianMesh.NewUniformMesh | Code/trunk/cpp/Geometry/CartesianMesh/OneD/CartesianMesh1D.cc:41-134 | refused exactly when the uniform checks fail; otherwise n equal zones of length L/n |
| HistSources.ZoneOf | Code/trunk/cpp/FissionSource/HistSource.cpp:80-82 | the zone a position is scored into lies in the mesh and holds the position in (left, right], or in the closed first zone |
| HistSources.FindZone | Code/trunk/cpp/Geometry/CartesianMesh/OneD/CartesianMesh1D.hh:273-279 | the binary-search lookup returns ZoneOf, a real zone |
| HistSources.Magnitude | Code/trunk/cpp/FissionSource/HistSource.cpp:85-92 | the magnitude is never negative |
| HistSources.PdfScaled | Code/trunk/cpp/FissionSource/HistSource.cpp:35-39 | with a positive total each probability is the absolute bin value over the total |
| HistSources.CdfShape | Code/trunk/cpp/FissionSource/HistSource.cpp:26-48 | with a positive magnitude the distribution never decreases, lies in [0, 1] and ends at exactly one |
| HistSources.FirstReachingSpec | Code/trunk/cpp/FissionSource/HistSource.cpp:64-67 | the scan stops at the first bin whose absolute cumulative value reaches the draw, and finds one exactly when some bin does |
| HistSources.DrawFindsBin | Code/trunk/cpp/FissionSource/HistSource.cpp:57-67 | once the distribution is built from a non-zero histogram, every draw of at most one finds a bin |
| HistSources.FractionInside | Code/trunk/cpp/FissionSource/HistSource.cpp:71 | a fraction u in [0, 1) of the way across [lo, hi) stays inside it |
| HistSources.SumAbs | Code/trunk/cpp/FissionSource/HistSource.cpp:28-31 | the loop's sum is the magnitude |
| HistSources.FillPdf | Code/trunk/cpp/FissionSource/HistSource.cpp:35-39 | the array holds the probabilities Pdf |
| HistSources.PrefixInPlace | Code/trunk/cpp/FissionSource/HistSource.cpp:42-46 | the array becomes its running sums, from the second entry on |
| HistSources.HistSource.constructor | Code/trunk/cpp/FissionSource/HistSource.h:32-35 | a source over the mesh with every bin and every distribution entry zero |
| HistSources.HistSource.FromBins | Code/trunk/cpp/FissionSource/HistSource.h:53-56 | a source holding the given bins, one per zone |
| HistSources.HistSource.MakeCdf | Code/trunk/cpp/FissionSource/HistSource.cpp:26-48 | a zero histogram leaves the distribution as it was; otherwise it becomes Cdf of the bins |
| HistSources.HistSource.Sample | Code/trunk/cpp/FissionSource/HistSource.cpp:54-78 | the bin is the first reaching the draw, the position a fraction u across its zone and inside it for u in [0, 1), the weight -1 for a non-positive bin and +1 otherwise |
| HistSources.HistSource.Score | Code/trunk/cpp/FissionSource/HistSource.cpp:80-82 | s is added to the bin of the zone holding x and to no other |
| HistSources.HistSource.GetMagnitude | Code/trunk/cpp/FissionSource/HistSource.cpp:85-92 | returns the sum of the absolute bin values |
| BankSources.Copies | Code/trunk/cpp/FissionSource/BankSource.cpp:118-120 | n copies of the entry |
| BankSources.Repeats | Code/trunk/cpp/FissionSource/BankSource.cpp:119 | the number of integers i with i < s: zero exactly when s is not positive, otherwise the ceiling of s |
| BankSources.UnitWeight | Code/trunk/cpp/FissionSource/BankSource.cpp:104-105 | -1 exactly for a negative weight, +1 otherwise |
| BankSources.Histogram | Code/trunk/cpp/FissionSource/BankSource.cpp:123-140 | one bin per zone holding the weight of the entries lying in it |
| BankSources.HistogramSnoc | Code/trunk/cpp/FissionSource/BankSource.cpp:128-132 | one more entry raises exactly its own zone's bin by its weight |
| BankSources.HistogramTotal | Code/trunk/cpp/FissionSource/BankSource.cpp:123-140 | the bins add up to the total weight of the entries: none is lost or invented |
| BankSources.ScanFindsBin | Code/trunk/cpp/FissionSource/BankSource.cpp:68-70 | the scan stops at a real bin when some cumulative value reaches the draw |
| BankSources.DrawnSpec | Code/trunk/cpp/FissionSource/BankSource.cpp:63-81 | the drawn bin is the first whose cumulative value reaches p, the weight's sign is that cumulative value's, and a u in [0, 1) puts the site inside the bin's zone and the slab |
| BankSources.DrawnWeightsPositive | Code/trunk/cpp/FissionSource/BankSource.cpp:76-78 | with non-negative draws the sign test only ever sees a value at least p, so every drawn weight is +1 |
| BankSources.Total | Code/trunk/cpp/FissionSource/BankSource.cpp:43-44 | the accumulated total is the sum of the bins |
| BankSources.BuildCdf | Code/trunk/cpp/FissionSource/BankSource.cpp:39-53 | the distribution is Shares of the bins: each over the total, accumulated from the first |
| BankSources.Scan | Code/trunk/cpp/FissionSource/BankSource.cpp:68-70 | the linear scan returns the first bin reaching p |
| BankSources.DrawAll | Code/trunk/cpp/FissionSource/BankSource.cpp:63-82 | one site per draw, in order, each Drawn from the distribution |
| BankSources.DrawnInSlab | Code/trunk/cpp/FissionSource/BankSource.cpp:71-74 | uniform draws keep every drawn site inside the slab |
| BankSources.BankSource.Empty | Code/trunk/cpp/FissionSource/BankSource.h:23-24 | an empty bank of size zero |
| BankSources.BankSource.FromBins | Code/trunk/cpp/FissionSource/BankSource.cpp:35-83 | exactly one drawn site per draw, bank and size both N |
| BankSources.BankSource.PushBack | Code/trunk/cpp/FissionSource/BankSource.cpp:108-116 | appends when no stored slot is free and otherwise overwrites slot size; the size rises by one and the contents gain the entry at the end |
| BankSources.BankSource.Score | Code/trunk/cpp/FissionSource/BankSource.cpp:118-120 | the contents gain Repeats(s) copies of the entry |
| BankSources.BankSource.Reset | Code/trunk/cpp/FissionSource/BankSource.h:62 | the contents become empty and the stored slots stay |
| BankSources.BankSource.Magnitude | Code/trunk/cpp/FissionSource/BankSource.h:43 | the magnitude is the number of sites |
| BankSources.BankSource.Sample | Code/trunk/cpp/FissionSource/BankSource.cpp:94-106 | copies the chosen stored site's position with a unit weight of its sign |
| BankSources.BankSource.Discretized | Code/trunk/cpp/FissionSource/BankSource.cpp:123-140 | returns the Histogram of the contents |
| LinearSpaces.Area | Code/trunk/cpp/FissionSource/LinearSpaceSource.cpp:28-30 | the coded formula is the trapezoid rule over the interval: half the width times the sum of the end values |
| LinearSpaces.Halves | Code/trunk/cpp/FissionSource/LinearSpaceSource.cpp:45-59 | the two halves split the interval at the line's root, the left one from xmin to the root and the right one from the root to xmax |
| LinearSpaces.RootForm | Code/trunk/cpp/FissionSource/LinearSpaceSource.cpp:45 | a line with a non-zero slope is its slope times the distance from its root |
| LinearSpaces.HalvesFollowAbs | Code/trunk/cpp/FissionSource/LinearSpaceSource.cpp:48-59 | each half follows the absolute value of the line on its side of the root |
| LinearSpaces.RootInside | Code/trunk/cpp/FissionSource/LinearSpaceSource.cpp:41-45 | the root of a straddling line lies strictly inside the interval |
| LinearSpaces.HalvesPositive | Code/trunk/cpp/FissionSource/LinearSpaceSource.cpp:57-63 | both halves enclose a positive area and neither straddles zero itself |
| LinearSpaces.AreaScaled | Code/trunk/cpp/FissionSource/LinearSpaceSource.cpp:104-107 | dividing slope and intercept by a divides the area by a |
| LinearSpaces.Initial | Code/trunk/cpp/FissionSource/LinearSpaceSource.h:42-48 | the zero line over the zone, not split |
| LinearSpaces.WithLine | Code/trunk/cpp/FissionSource/LinearSpaceSource.h:50-56 | the given line, with the scored weight starting at the intercept and the first moment at the slope |
| LinearSpaces.Scored | Code/trunk/cpp/FissionSource/LinearSpaceSource.cpp:72-80 | scoring keeps a well-formed state well-formed |
| LinearSpaces.ScoresAccumulate | Code/trunk/cpp/FissionSource/LinearSpaceSource.cpp:72-80 | after a run of scores the weight and the first moment about the midpoint have grown by exactly the totals of the scores, and the line is untouched |
| LinearSpaces.PostScored | Code/trunk/cpp/FissionSource/LinearSpaceSource.cpp:82-100 | the fit keeps the zone's interval and a well-formed state |
| LinearSpaces.PostScoringMoments | Code/trunk/cpp/FissionSource/LinearSpaceSource.cpp:82-100 | the fitted line reproduces the moments per history: its area is the mean weight and its first moment about the midpoint the mean scored moment |
| LinearSpaces.WithMagnitude | Code/trunk/cpp/FissionSource/LinearSpaceSource.cpp:39-70 | the magnitude is non-negative, the line is kept, and the space is split afterwards exactly when it was split before or its line straddles zero |
| LinearSpaces.SplitAreas | Code/trunk/cpp/FissionSource/LinearSpaceSource.cpp:41-65 | a newly split line's side probabilities are the positive areas of its two halves and the magnitude is their sum |
| LinearSpaces.Normalized | Code/trunk/cpp/FissionSource/LinearSpaceSource.cpp:102-122 | normalisation keeps the state well formed and splits exactly as the magnitude computation does |
| LinearSpaces.NormalizedUnit | Code/trunk/cpp/FissionSource/LinearSpaceSource.cpp:102-122 | afterwards a split space's side probabilities are non-negative and sum to one, an unsplit space with a non-zero magnitude has unit absolute area, and the weight is the magnitude |
| LinearSpaces.ShareSum | Code/trunk/cpp/FissionSource/LinearSpaceSource.cpp:114-116 | two non-negative parts over their positive total are non-negative and sum to one |
| LinearSpaces.NormalizedHalfUnit | Code/trunk/cpp/FissionSource/LinearSpaceSource.cpp:118-119 | each normalised half has unit area |
| LinearSpaces.LinearSpace.constructor | Code/trunk/cpp/FissionSource/LinearSpaceSource.h:42-48 | the state is Initial over [xmin, xmax] |
| LinearSpaces.LinearSpace.Coefficients | Code/trunk/cpp/FissionSource/LinearSpaceSource.h:50-56 | the state is WithLine of the given slope and intercept |
| LinearSpaces.LinearSpace.Magnitude | Code/trunk/cpp/FissionSource/LinearSpaceSource.cpp:33-35 | the scored weight |
| LinearSpaces.LinearSpace.Score | Code/trunk/cpp/FissionSource/LinearSpaceSource.cpp:72-80 | the new state is Scored of the old |
| LinearSpaces.LinearSpace.PostScoring | Code/trunk/cpp/FissionSource/LinearSpaceSource.cpp:82-100 | the new state is PostScored of the old |
| LinearSpaces.LinearSpace.TotalArea | Code/trunk/cpp/FissionSource/LinearSpaceSource.cpp:39-70 | the new state and the result are WithMagnitude of the old state, splitting the line on the first straddling call |
| LinearSpaces.LinearSpace.Normalize | Code/trunk/cpp/FissionSource/LinearSpaceSource.cpp:102-122 | the new state is Normalized of the old |
| LinearSpaceSources.Interleaved | Code/trunk/cpp/FissionSource/LinearSpaceSource.cpp:196-207 | two entries per zone: the zone's slope at 2i and its intercept at 2i+1 |
| LinearSpaceSources.InterleavedRoundTrip | Code/trunk/cpp/FissionSource/LinearSpaceSource.h:232-238 | reading interleaved coefficients back two at a time gives every zone its own slope and intercept |
| LinearSpaceSources.Magnitudes | Code/trunk/cpp/FissionSource/LinearSpaceSource.cpp:218-224 | one non-negative magnitude per zone, the one its space reports |
| LinearSpaceSources.ZoneCdfShape | Code/trunk/cpp/FissionSource/LinearSpaceSource.cpp:209-238 | the zone distribution never decreases, lies in [0, 1], ends at one, and every draw of at most one finds a zone |
| LinearSpaceSources.Accumulate | Code/trunk/cpp/FissionSource/LinearSpaceSource.cpp:228-235 | the distribution is the running sums of the absolute probabilities from the first entry |
| LinearSpaceSources.MakeSpaces | Code/trunk/cpp/FissionSource/LinearSpaceSource.h:198-220 | one fresh distinct space per zone covering it, with that zone's slope and intercept |
| LinearSpaceSources.PostScoreAll | Code/trunk/cpp/FissionSource/LinearSpaceSource.cpp:189-192 | every space is fitted from its moments over the same number of histories |
| LinearSpaceSources.TotalAreas | Code/trunk/cpp/FissionSource/LinearSpaceSource.cpp:218-224 | every space reports its magnitude, in zone order, and the sum is their total |
| LinearSpaceSources.DivideInto | Code/trunk/cpp/FissionSource/LinearSpaceSource.cpp:227 | the probabilities are the magnitudes over their sum |
| LinearSpaceSources.NormalizeAll | Code/trunk/cpp/FissionSource/LinearSpaceSource.cpp:183-186 | every space is normalised |
| LinearSpaceSources.LinearSpaceSource.constructor | Code/trunk/cpp/FissionSource/LinearSpaceSource.cpp:126-144 | one space per zone, each with a zero line over its zone |
| LinearSpaceSources.LinearSpaceSource.FromLines | Code/trunk/cpp/FissionSource/LinearSpaceSource.h:198-220 | one space per zone with that zone's slope and intercept |
| LinearSpaceSources.LinearSpaceSource.FromCoefficients | Code/trunk/cpp/FissionSource/LinearSpaceSource.h:222-243 | zone i takes its slope and intercept from entries 2i and 2i+1 |
| LinearSpaceSources.LinearSpaceSource.Magnitude | Code/trunk/cpp/FissionSource/LinearSpaceSource.cpp:166-174 | the sum of the scored weights of all zones |
| LinearSpaceSources.LinearSpaceSource.Score | Code/trunk/cpp/FissionSource/LinearSpaceSource.cpp:176-178 | only the space of the zone holding x scores; every other space is unchanged |
| LinearSpaceSources.LinearSpaceSource.PostScoring | Code/trunk/cpp/FissionSource/LinearSpaceSource.cpp:189-192 | every space becomes PostScored of its old state |
| LinearSpaceSources.LinearSpaceSource.MakeDistributionFunctions | Code/trunk/cpp/FissionSource/LinearSpaceSource.cpp:209-238 | every space computes its magnitude; the probabilities are the magnitudes over their sum and the distribution their running shares |
| LinearSpaceSources.LinearSpaceSource.Normalize | Code/trunk/cpp/FissionSource/LinearSpaceSource.cpp:180-187 | the distribution is built first, then every space is normalised from the state that left it in |
| LinearSpaceSources.LinearSpaceSource.Coefficients | Code/trunk/cpp/FissionSource/LinearSpaceSource.cpp:196-207 | the interleaved slopes and intercepts of the zones |
| LinearSpaceSources.LinearSpaceSource.Sample | Code/trunk/cpp/FissionSource/LinearSpaceSource.cpp:146-164 | the zone is the first whose distribution entry reaches the draw, and the weight is -1 where the zone's line is negative at the sampled position, else +1 |
| MarkovTransport.Roulette | Code/trunk/cpp/Markov/Markov.h:152-157 | killed exactly when the draw is below PKill; a survivor's weight times the survival probability is the old weight, so roulette keeps the expected weight |
| MarkovTransport.RouletteSurvivor | Code/trunk/cpp/Markov/Markov.h:145-155 | a survivor of roulette played below the cutoff keeps its sign, does not shrink, and stays below cutoff / (1 - PKill) |
| MarkovTransport.Collided | Code/trunk/cpp/Markov/Markov.h:137 | a flight moves the particle and sets its leaked flag, keeping its weight |
| MarkovTransport.TrackedStops | Code/trunk/cpp/Markov/Markov.h:135-148 | a history stops on a leak exactly when its last flight leaked, a kill happens only below the weight cutoff, no score is made by a leaked particle or outside the field, at most one score per flight |
| MarkovTransport.ScoresBeforeReduction | Code/trunk/cpp/Markov/Markov.h:140-146 | every score carries the weight from before its collision's reduction: the first the starting weight, each next one the previous weight times xS/xT, raised by roulette when that fell below the cutoff |
| MarkovTransport.PlayRoulette | Code/trunk/cpp/Markov/Markov.h:152-157 | killed exactly when the draw is below PKill; otherwise the weight is divided by 1 - PKill |
| MarkovTransport.TrackHistory | Code/trunk/cpp/Markov/Markov.h:134-148 | the tracking loop's result is Tracked |
| MarkovTransport.Started | Code/trunk/cpp/Markov/Markov.h:104-106 | a history starts at the sampled site, in the zone holding it, with its weight and not leaked |
| MarkovTransport.HistoriesStart | Code/trunk/cpp/Markov/Markov.h:103-108 | every history of a batch starts unleaked with its site's weight and stops on a leak exactly when its last flight leaked |
| MarkovTransport.Counter.constructor | Code/trunk/cpp/Markov/Markov.h:74 | the shared count starts at zero |
| MarkovTransport.Markov.constructor | Code/trunk/cpp/Markov/Markov.h:78-89 | a new tracker takes the next count as its ID and appends it to its seed, so successive trackers have distinct IDs and seeds |
| MarkovTransport.HistoriesCons | Code/trunk/cpp/Markov/Markov.h:103-108 | a batch is its first history, tracked from the first site, followed by the histories of the remaining sites using only the draws the first left unused |
| MarkovTransport.Markov.Transport | Code/trunk/cpp/Markov/Markov.h:97-110 | exactly n histories, each started from its sampled site and tracked |
| Utilities.EntrywiseSquares | Code/trunk/cpp/Misc/Utilities.h:65-67 | entry i of the squares is the square of entry i, and likewise for deviations from any centre |
| Utilities.Sums | Code/trunk/cpp/Misc/Utilities.h:58-69 | the loop returns the sum of the entries and the sum of their squares |
| Utilities.DeviationsExpand | Code/trunk/cpp/Misc/Utilities.h:47-51 | the squared deviations from any centre expand into the sum of squares and the sum: the identity behind the one-pass formula |
| Utilities.CenteredSpread | Code/trunk/cpp/Misc/Utilities.h:47-51 | about a mean m with m times N equal to the sum, (1/N)(<x^2> - m^2) is the sum of squared deviations over N squared |
| Utilities.DeviationsNonNegative | Code/trunk/cpp/Misc/Utilities.h:51 | the sum of squared deviations is never negative, so the square root's argument is not negative |
| Utilities.ConstantSample | Code/trunk/cpp/Misc/Utilities.h:40-52 | a constant sample has that constant as its only mean and no spread |
| Utilities.StdDevMean | Code/trunk/cpp/Misc/Utilities.h:40-52 | the mean times N is the sum, and the returned variance (the square of the standard deviation) is the sum of squared deviations over N twice, never negative |
| Utilities.MeanSpread | Code/trunk/cpp/Misc/Utilities.h:46-51 | the mean computed as the sum over N satisfies the same two facts |
| Utilities.SampleSpread | Code/trunk/cpp/Misc/Utilities.h:47-51 | about the mean the coded spread is the mean squared deviation over N, and so never negative |
| Utilities.Norm | Code/trunk/cpp/Misc/Utilities.h:209-215 | every entry is divided by the sum of the absolute values, after which the absolute values sum to one |
| Utilities.NormalizedMagnitude | Code/trunk/cpp/Misc/Utilities.h:207-215 | scaling by the magnitude leaves absolute values summing to one |
| Utilities.SplitJoin | Code/trunk/cpp/Misc/Utilities.h:176-188 | splitting into real and imaginary parts loses nothing: joining the parts gives back the vector and the other way round |
| Utilities.SplitComplexVector | Code/trunk/cpp/Misc/Utilities.h:176-188 | fresh real and imaginary arrays as long as the input whose entries, joined, are the input |
| RealSums.Abs | Code/trunk/cpp/Markov/Power.h:267 | std::abs of a weight: non-negative and equal to the weight or its negation |
| RealSums.PrefixSumsSortedTotal | Code/trunk/cpp/FissionSource/BankSource.cpp:50-53 | running sums of non-negative entries are non-negative, never decrease and end at the total |
| RealSums.SumScaled | Code/trunk/cpp/FissionSource/BankSource.cpp:47-49 | dividing every entry by c divides the sum by c |
| RealSums.SumUpdate | Code/trunk/cpp/FissionSource/HistSource.cpp:80-82 | raising one entry by w raises the sum by w |
| RealSums.SharesEndAtOne | Code/trunk/cpp/FissionSource/BankSource.cpp:39-53 | the cumulative shares of the bins end at one whatever their signs |
| RealSums.SharesSorted | Code/trunk/cpp/FissionSource/BankSource.cpp:39-53 | for non-negative bins the cumulative shares never decrease and stay within [0, 1] |
| RealSums.PrefixSumsIncrease | Code/trunk/cpp/Geometry/CartesianMesh/OneD/CartesianMesh1D.cc:186-194 | prefix sums of positive zone lengths strictly increase |
| ArnoldiMethod.PairCompareOrder | Code/trunk/cpp/LinearAlgebra/Arnoldi.h:367-372 | the comparison by real then imaginary part is irreflexive, asymmetric and transitive, and two pairs are tied exactly when their eigenvalues are equal |
| ArnoldiMethod.Indexed | Code/trunk/cpp/LinearAlgebra/Arnoldi.h:385-389 | each eigenvalue is paired with its position |
| ArnoldiMethod.Position | Code/trunk/cpp/LinearAlgebra/Arnoldi.h:391 | the insertion point lies after every entry the new pair does not compare less than and before one it does |
| ArnoldiMethod.InsertEntries | Code/trunk/cpp/LinearAlgebra/Arnoldi.h:391 | inserting keeps the entries before the insertion point, puts the pair there and shifts the rest, adding exactly that pair |
| ArnoldiMethod.InsertSorted | Code/trunk/cpp/LinearAlgebra/Arnoldi.h:391 | inserting a pair that comes after the sorted entries in the original order keeps the list stably sorted |
| ArnoldiMethod.StableSortedCorrect | Code/trunk/cpp/LinearAlgebra/Arnoldi.h:391 | the reference sort of the numbered pairs is stably sorted (by the comparison, ties in original order) and a permutation of them |
| ArnoldiMethod.StablySortedUnique | Code/trunk/cpp/LinearAlgebra/Arnoldi.h:391 | two stably sorted lists with the same entries are equal, so any stable sort, std::stable_sort included, gives StableSorted |
| ArnoldiMethod.StableSort | Code/trunk/cpp/LinearAlgebra/Arnoldi.h:391 | the sort loop returns StableSorted of the pairs |
| ArnoldiMethod.SortEigenPairs | Code/trunk/cpp/LinearAlgebra/Arnoldi.h:379-403 | the eigenvalues come out stably sorted by the comparison and each eigenvector moves with its eigenvalue |
| ArnoldiMethod.Reorder | Code/trunk/cpp/LinearAlgebra/Arnoldi.h:393-402 | entry i of the values and column i of the vectors are taken from the index the i-th pair carries |
| ArnoldiMethod.SortedEigenvalues | Code/trunk/cpp/LinearAlgebra/Arnoldi.h:379-403 | the reordered eigenvalues are in order: none compares less than one before it |
| ArnoldiMethod.ZeroMatrix | Code/trunk/cpp/LinearAlgebra/Arnoldi.h:187 | the cleared I-by-I matrix is square and upper Hessenberg |
| ArnoldiMethod.ClearBelowSubdiagonal | Code/trunk/cpp/LinearAlgebra/Arnoldi.h:253-255 | entries more than one below the diagonal become zero and all others are kept |
| ArnoldiMethod.ClearedIsHessenberg | Code/trunk/cpp/LinearAlgebra/Arnoldi.h:252-255 | the cleared matrix is square, upper Hessenberg, and agrees with the QR result on and above the subdiagonal |
| ArnoldiMethod.NewColumnOrtho | Code/trunk/cpp/LinearAlgebra/Arnoldi.h:289-291 | storing the normalised vector as the next column keeps the stored columns orthonormal |
| ArnoldiMethod.IterationOrtho | Code/trunk/cpp/LinearAlgebra/Arnoldi.h:289-294 | after an iteration the stored columns are orthonormal and the returned vector orthogonal to them |
| ArnoldiMethod.RitzRealPart | Code/trunk/cpp/LinearAlgebra/Arnoldi.h:358-361 | the real part of a Ritz vector is the combination of the Arnoldi vectors by the real parts of the eigenvector |
| ArnoldiMethod.WantedSumInSpan | Code/trunk/cpp/LinearAlgebra/Arnoldi.h:269-275 | the explicit restart vector is a combination of the Arnoldi vectors, with the summed real parts of the wanted eigenvectors as coefficients |
| ArnoldiMethod.EigenPairs | Code/trunk/cpp/LinearAlgebra/Arnoldi.h:340-361 | the eigenvalues of the leading block come out in order with eigenvectors of the block's size, the Ritz vectors are the first k+1 columns times them, and the residual is the modulus of the last eigenvector's last entry times the norm of the remainder |
| ArnoldiMethod.FreshStart | Code/trunk/cpp/LinearAlgebra/Arnoldi.h:185-203 | H starts as the zero I×I matrix and V as I zero columns; the start is usable exactly when the vector is non-zero, and then V[0] is the normalised vector, H[0][0] is alpha = V[0]·A V[0] with every other entry of H zero, the other columns of V stay zero, and the remainder is A V[0] − alpha V[0], orthogonal to V[0]; a zero vector leaves H and V cleared |
| ArnoldiMethod.AddWanted | Code/trunk/cpp/LinearAlgebra/Arnoldi.h:271-273 | the sum of the real parts of the last n Ritz vectors, added from the last |
| ArnoldiMethod.Arnoldi.constructor | Code/trunk/cpp/LinearAlgebra/Arnoldi.h:85-86 | no iterations, no wanted eigenvalues, no restarts, empty H and V |
| ArnoldiMethod.Arnoldi.Normalize | Code/trunk/cpp/LinearAlgebra/Arnoldi.h:331-335 | the norm is stored at H[k][k-1] and nothing else changes; the result is the unit vector along v when v is non-zero |
| ArnoldiMethod.Arnoldi.Orthogonalize | Code/trunk/cpp/LinearAlgebra/Arnoldi.h:304-313 | the projections on the first k+1 columns go into column k of H, and the result is v minus them, orthogonal to orthonormal columns |
| ArnoldiMethod.Arnoldi.Iteration | Code/trunk/cpp/LinearAlgebra/Arnoldi.h:289-299 | column k of V becomes the normalised v, H gains the norm and the projections of the operator applied to it, and the result is that product deflated |
| ArnoldiMethod.Arnoldi.Step | Code/trunk/cpp/LinearAlgebra/Arnoldi.h:206-211 | one iteration, then stop at column I-1 or move to the next column; orthonormality is carried forward |
| ArnoldiMethod.Arnoldi.Extend | Code/trunk/cpp/LinearAlgebra/Arnoldi.h:205-211 | iterations run until k is I-1, keeping the earlier columns and the orthonormality of the columns with the remainder orthogonal to them |
| ArnoldiMethod.Arnoldi.Factorize | Code/trunk/cpp/LinearAlgebra/Arnoldi.h:184-212 | a fresh start when k is zero, then iterations until k is I-1; the result keeps the columns orthonormal and the remainder orthogonal to them |
| ArnoldiMethod.Arnoldi.ERestart | Code/trunk/cpp/LinearAlgebra/Arnoldi.h:269-275 | the new start vector is the summed real parts of the last n Ritz vectors, a combination of the Arnoldi vectors, and k returns to zero |
| ArnoldiMethod.Arnoldi.IRestart | Code/trunk/cpp/LinearAlgebra/Arnoldi.h:239-265 | H becomes the shifted QR result cleared below the subdiagonal, the first n Arnoldi vectors are rotated by Q, v is scaled by Q[I-1][n-1] and k becomes n-1 |
| ArnoldiMethod.Arnoldi.CalcEigenPairs | Code/trunk/cpp/LinearAlgebra/Arnoldi.h:340-361 | sorted eigenvalues of H, eigenvectors of its size, Ritz vectors from V and the residual estimate |
| ArnoldiMethod.Arnoldi.Restart | Code/trunk/cpp/LinearAlgebra/Arnoldi.h:218-235 | the factorisation, the eigenpairs in order, then k is n-1 after an implicit restart or 0 after an explicit one, which also accepts n = 0 |
| ArnoldiMethod.Arnoldi.RAM | Code/trunk/cpp/LinearAlgebra/Arnoldi.h:149-176 | nothing happens when I <= n; otherwise I, n and the method are stored and the restart runs R times, and at least once, leaving I eigenvalues in order; explicit restarts also run with n = 0 |
| ArnoldiMonteCarlo.SquareRatio | Code/trunk/cpp/Markov/ArnoldiMC.h:384-387 | the Bouras factor res²/η² of a residual below the relaxation parameter lies in [0, 1) |
| ArnoldiMonteCarlo.RelaxedBounds | Code/trunk/cpp/Markov/ArnoldiMC.h:380-391 | relaxing never asks for more than the full count, asks for the full count once res >= η, and for none when the residual is zero |
| ArnoldiMonteCarlo.RelaxedMonotone | Code/trunk/cpp/Markov/ArnoldiMC.h:380-391 | a larger residual never asks for fewer histories |
| ArnoldiMonteCarlo.ScaleSource | Code/trunk/cpp/Markov/ArnoldiMC.h:269-277 | the scaled vector has the length of the next source's distribution |
| ArnoldiMonteCarlo.ScaleLinearSource | Code/trunk/cpp/Markov/ArnoldiMC.h:279-288 | the linear-space specialisation's vector has the length of the distribution |
| ArnoldiMonteCarlo.ScaledSums | Code/trunk/cpp/Markov/ArnoldiMC.h:269-288 | with histories tracked, the scaled vector times the count sums to the distribution's sum times the magnitude (the specialisation: without the count); with none tracked both vectors are zero everywhere |
| ArnoldiMonteCarlo.ComplexSumSnoc | Code/trunk/cpp/Markov/ArnoldiMC.h:537-538 | adding one estimate to the running sums adds it and its square |
| ArnoldiMonteCarlo.ValueStatsOverAll | Code/trunk/cpp/Markov/ArnoldiMC.h:530-557 | in either branch the statistics after one more estimate are the sums over all estimates, their mean and the variance formula (1/N)(sum2/N − mean²) over N = active + 1 |
| ArnoldiMonteCarlo.FirstEstimate | Code/trunk/cpp/Markov/ArnoldiMC.h:547-550 | at the first active restart, mean = dominant and zero variance agree with the general formula over one estimate |
| ArnoldiMonteCarlo.RealEstimates | Code/trunk/cpp/Markov/ArnoldiMC.h:540-545 | for real estimates the mean times N is their sum and the variance's real part is the mean squared deviation over N, never negative |
| ArnoldiMonteCarlo.NumberedNext | Code/trunk/cpp/Markov/ArnoldiMC.h:504 | listing R − inactive keeps the restart numbers counted from the first active restart |
| ArnoldiMonteCarlo.ClearedConsistent | Code/trunk/cpp/Markov/ArnoldiMC.h:88-126 | the cleared records fit zero restarts |
| ArnoldiMonteCarlo.NoStatistics | Code/trunk/cpp/Markov/ArnoldiMC.h:128-129 | zeroed sums are the sums over no estimate |
| ArnoldiMonteCarlo.ArnoldiMC.constructor | Code/trunk/cpp/Markov/ArnoldiMC.h:55-66 | the driver starts with the given relaxation parameter, zero counts and empty records |
| ArnoldiMonteCarlo.ArnoldiMC.Start | Code/trunk/cpp/Markov/ArnoldiMC.h:78-133 | RAM's set-up stores the inactive and history counts, clears every record but the entropy by restart, and zeroes the sums |
| ArnoldiMonteCarlo.ArnoldiMC.BeginRestart | Code/trunk/cpp/Markov/ArnoldiMC.h:429-432 | a restart begins with the full history count and no history tracked |
| ArnoldiMonteCarlo.ArnoldiMC.Av | Code/trunk/cpp/Markov/ArnoldiMC.h:250-263 | a product counts rHistories more tracked histories and returns the scaled next source, nothing else changing |
| ArnoldiMonteCarlo.ArnoldiMC.RecordIteration | Code/trunk/cpp/Markov/ArnoldiMC.h:290-375 | an iteration appends the entropy, the time and the running track total to the active lists from restart `inactive` on and to the inactive lists before; with relaxation the next count is RelaxedHistories of the residual |
| ArnoldiMonteCarlo.ArnoldiMC.FinishRestart | Code/trunk/cpp/Markov/ArnoldiMC.h:429-525 | a restart appends time, running track total, residual and entropy to the lists of its kind, lists R − inactive, sets mean = dominant and zero variance when inactive and folds the estimate into the statistics when active |
| ArnoldiMonteCarlo.ArnoldiMC.FinishInactive | Code/trunk/cpp/Markov/ArnoldiMC.h:451-476 | the inactive branch of a restart's records |
| ArnoldiMonteCarlo.ArnoldiMC.FinishActive | Code/trunk/cpp/Markov/ArnoldiMC.h:477-502 | the active branch of a restart's records, with the statistics updated by ValueStats |
| ArnoldiMonteCarlo.ArnoldiMC.Tracks | Code/trunk/cpp/Markov/ArnoldiMC.h:564-591 | with inactive restarts, the running sums over all restarts' counts; without, the active running sums offset by the inactive total |
| ArnoldiMonteCarlo.ArnoldiMC.TracksByIteration | Code/trunk/cpp/Markov/ArnoldiMC.h:598-611 | with inactive iterations, the running sums over all iterations' counts; without, those of the active iterations alone |
| ArnoldiMonteCarlo.ArnoldiMC.Time | Code/trunk/cpp/Markov/ArnoldiMC.h:618-628 | inactive ++ active times, one per restart, or the active times, one per active restart |
| ArnoldiMonteCarlo.ArnoldiMC.TimeByIteration | Code/trunk/cpp/Markov/ArnoldiMC.h:635-645 | inactive ++ active times by iteration, as long as the track totals by iteration |
| ArnoldiMonteCarlo.ArnoldiMC.Entropy | Code/trunk/cpp/Markov/ArnoldiMC.h:648-659 | inactive ++ active entropies by iteration, as long as the times by iteration |
| ArnoldiMonteCarlo.ArnoldiMC.EntropyRestart | Code/trunk/cpp/Markov/ArnoldiMC.h:662-673 | inactive ++ active entropies by restart, or the active ones |
| ArnoldiMonteCarlo.ArnoldiMC.Residual | Code/trunk/cpp/Markov/ArnoldiMC.h:772-780 | inactive ++ active residuals, one per restart, or the active ones, one per active restart |
| ArnoldiMonteCarlo.ArnoldiMC.Restarts | Code/trunk/cpp/Markov/ArnoldiMC.h:157 | one number per restart, the i-th being i − inactive |
| ArnoldiMonteCarlo.ArnoldiMC.RealStatistics | Code/trunk/cpp/Markov/ArnoldiMC.h:530-557 | with real dominant estimates the reported mean is their mean and the variance's real part their mean squared deviation over N, never negative |
| CycleRecords.Total | Code/trunk/cpp/Markov/ArnoldiMC.h:581-582 | the last entry of a running total, or zero before the first cycle |
| CycleRecords.Accumulated | Code/trunk/cpp/Markov/ArnoldiMC.h:319-324 | pushing the first count or the last total plus the count extends the list by one entry and keeps the earlier ones |
| CycleRecords.AccumulatedSums | Code/trunk/cpp/Markov/ArnoldiMC.h:319-339 | the cumulative track lists are the running sums of the per-cycle counts |
| CycleRecords.Offset | Code/trunk/cpp/Markov/ArnoldiMC.h:584-587 | every entry raised by the same amount |
| CycleRecords.Tracks | Code/trunk/cpp/Markov/ArnoldiMC.h:564-591 | the list has the inactive entries (when wanted) and one entry per active cycle |
| CycleRecords.TracksSplit | Code/trunk/cpp/Markov/Power.h:74-100 | Tracks(true) is the inactive totals followed by Tracks(false), which is the active totals raised by the inactive total, including when no inactive cycle ran |
| CycleRecords.TracksAreRunningTotals | Code/trunk/cpp/Markov/ArnoldiMC.h:564-591 | for running totals, the combined list is the running total over inactive and active cycles together |
| CycleRecords.PrefixSumsAppendRight | Code/trunk/cpp/Markov/ArnoldiMC.h:573 | the running sums of the active part continue from the inactive total |
| CycleRecords.TracksByIteration | Code/trunk/cpp/Markov/ArnoldiMC.h:598-611 | the list has the inactive entries (when wanted) and one entry per active iteration |
| CycleRecords.TracksByIterationAgrees | Code/trunk/cpp/Markov/ArnoldiMC.h:598-611 | with inactive iterations the rule agrees with Tracks; without, the active totals are returned unraised, differing from Tracks by the inactive total |
| CycleRecords.WithInactive | Code/trunk/cpp/Markov/ArnoldiMC.h:618-628 | the inactive-then-active list is no longer than the two parts |
| CycleRecords.WithInactiveConcatenates | Code/trunk/cpp/Markov/ArnoldiMC.h:618-673 | the test for an empty inactive part makes no difference: the result is inactive ++ active when wanted, the active part otherwise |
| CycleRecords.TotalOfRunningSums | Code/trunk/cpp/Markov/ArnoldiMC.h:581-582 | the last running total is the sum of all counts |
| PowerMethod.Truncate | Code/trunk/cpp/Markov/Power.h:267 | the conversion to int rounds toward zero on both signs |
| PowerMethod.TruncateBounds | Code/trunk/cpp/Markov/Power.h:267 | truncation never moves away from zero and moves by less than one |
| PowerMethod.StochasticRounding | Code/trunk/cpp/Markov/Power.h:264-270 | for an expected count m ≥ 0 and xi in [0, 1) the banked count is ⌊m⌋, plus one exactly when xi ≥ 1 − frac(m) |
| PowerMethod.BankedSites | Code/trunk/cpp/Markov/Power.h:264-270 | every banked site is the site of one of the collisions |
| PowerMethod.BankedInSlab | Code/trunk/cpp/Markov/Power.h:264-270 | sites banked by collisions inside the slab lie inside the slab |
| PowerMethod.CycleHistogram | Code/trunk/cpp/Markov/Power.h:371-373 | the cycle's discretised source is the histogram over the zones of the banked sites |
| PowerMethod.ScoreAll | Code/trunk/cpp/Markov/Power.h:264-270 | scoring every collision appends exactly the banked sites, in order, to the source |
| PowerMethod.RunningStatsSnoc | Code/trunk/cpp/Markov/Power.h:286-291 | appending an estimate with its mean and variance over all estimates keeps entry i the statistics of the first i + 1 estimates |
| PowerMethod.ComponentStats | Code/trunk/cpp/Markov/Power.h:352-366 | a component's mean times N is its sum and the spread (1/N)(sum2/N − mean²) is the mean squared deviation over N, never negative |
| PowerMethod.SumsStep | Code/trunk/cpp/Markov/Power.h:339-343 | adding one cycle vector adds its entries to the column sums and their squares to the sums of squares |
| PowerMethod.ColumnSums | Code/trunk/cpp/Markov/Power.h:327-343 | the accumulated vectors are each component's sum and sum of squares over all cycle vectors |
| PowerMethod.CalcMeanVector | Code/trunk/cpp/Markov/Power.h:320-369 | each component's mean and variance over the cycle vectors, the variance never negative |
| PowerMethod.UnitVector | Code/trunk/cpp/Markov/Power.h:302 | dividing by the Euclidean norm leaves a vector whose squares sum to one |
| PowerMethod.Counted | Code/trunk/cpp/Markov/Power.h:233-248 | an active cycle's count joins the active counts, an inactive one's the inactive counts |
| PowerMethod.Record | Code/trunk/cpp/Markov/Power.h:223-254 | one cycle's records: the active lists grow with estimate, running mean and variance, time, running total, entropy and normalised vector (with the vector statistics recomputed), or only the inactive ones grow; the records stay consistent with the counts |
| PowerMethod.Cycle | Code/trunk/cpp/Markov/Power.h:215-258 | the collisions bank their sites into the empty next source, whose size is returned, and the current source ends empty |
| PowerMethod.Power.constructor | Code/trunk/cpp/Markov/Power.h:39-45 | the estimate starts at one, inactive, with empty records and an empty source |
| PowerMethod.Power.Begin | Code/trunk/cpp/Markov/Power.h:182-196 | the run takes the starting source and the histories, a fresh next source, inactive cycles and cleared times; the rest carries over |
| PowerMethod.Power.Activate | Code/trunk/cpp/Markov/Power.h:202 | only the active flag changes |
| PowerMethod.Power.Iteration | Code/trunk/cpp/Markov/Power.h:213-260 | one cycle: the next source receives the banked sites, k becomes k·(banked/histories), the records grow as Record states with the banked-site histogram as the cycle vector, and the sources are swapped with the new next source empty |
| PowerMethod.Power.Log | Code/trunk/cpp/Markov/Power.h:223-254 | the records of one cycle, as Record states |
| PowerMethod.Power.Transport | Code/trunk/cpp/Markov/Power.h:215 | the sites banked into the next source, their number and their histogram |
| PowerMethod.Power.EigEstimates | Code/trunk/cpp/Markov/Power.h:53-60 | inactive ++ active estimates when wanted, the active estimates otherwise |
| PowerMethod.Power.Time | Code/trunk/cpp/Markov/Power.h:64-68 | the inactive times followed by the active times |
| PowerMethod.Power.Entropy | Code/trunk/cpp/Markov/Power.h:69-73 | the inactive entropies followed by the active ones, one per cycle of either kind |
| PowerMethod.Power.Tracks | Code/trunk/cpp/Markov/Power.h:74-100 | with inactive cycles, the running sums over all cycles' histories; without, the active running sums raised by the inactive total |
| PowerMethod.Power.MeanValues | Code/trunk/cpp/Markov/Power.h:105-111 | the inactive estimates as they are, then for the j-th active cycle the mean of the first j + 1 active estimates |
| PowerMethod.Power.StdDevValues | Code/trunk/cpp/Markov/Power.h:116-122 | as long as MeanValues: zero for inactive cycles, then the variance of the mean of the active estimates so far |
| TestMatrices.FullNumbering | Code/trunk/cpp/LinearAlgebra/Matrices.hpp:41-54 | the full matrix holds numbers from 1 to rows·cols, an earlier row-major position holding a smaller one |
| TestMatrices.FullConsecutive | Code/trunk/cpp/LinearAlgebra/Matrices.hpp:47-52 | consecutive entries along a row and across the end of a row differ by one |
| TestMatrices.StandardShape | Code/trunk/cpp/LinearAlgebra/Matrices.hpp:59-63 | the standard matrix is 1, 2, 3, … on the diagonal, zero above it, and non-zero below it only at (2, 1): it differs from the diagonal matrix in that entry alone |
| TestMatrices.KeptBeforeGrows | Code/trunk/cpp/LinearAlgebra/Matrices.hpp:73-81 | the count of numbered entries before a later row includes all of an earlier row's |
| TestMatrices.HessenbergNumbering | Code/trunk/cpp/LinearAlgebra/Matrices.hpp:66-82 | zero below the subdiagonal, at least one on and above it, 1 at (0, 0), and an earlier row-major position on or above the subdiagonal holding a smaller number |
| TestMatrices.HessenbergConsecutive | Code/trunk/cpp/LinearAlgebra/Matrices.hpp:73-81 | consecutive numbered entries along a row and from a row's end to the next row's first differ by one |
| TestMatrices.ZeroAll | Code/trunk/cpp/LinearAlgebra/Matrices.hpp:31 | every entry becomes zero |
| TestMatrices.Diagonal | Code/trunk/cpp/LinearAlgebra/Matrices.hpp:26-37 | in place, A(i, i) = i + 1 as far as both dimensions reach and zero elsewhere |
| TestMatrices.FullRow | Code/trunk/cpp/LinearAlgebra/Matrices.hpp:48-52 | one pass of the inner loop numbers row i and leaves the other rows |
| TestMatrices.Full | Code/trunk/cpp/LinearAlgebra/Matrices.hpp:41-54 | in place, A(i, j) = i·cols + j + 1 |
| TestMatrices.Standard | Code/trunk/cpp/LinearAlgebra/Matrices.hpp:59-63 | in place, the diagonal matrix with A(2, 1) = 1 |
| TestMatrices.HessenbergRow | Code/trunk/cpp/LinearAlgebra/Matrices.hpp:74-80 | one pass of the inner loop numbers row i's entries from the subdiagonal on, zeroes the rest of the row and leaves the other rows |
| TestMatrices.UHessenberg | Code/trunk/cpp/LinearAlgebra/Matrices.hpp:66-82 | in place, the upper Hessenberg matrix numbered row by row, zero below the subdiagonal |
| TestMatrices.Watkins | Code/trunk/cpp/LinearAlgebra/Matrices.hpp:86-93 | the 2-by-2 matrix [8 2; 2 5] |
| TestMatrices.WatkinsEigenvalues | Code/trunk/cpp/LinearAlgebra/Matrices.hpp:84-93 | that matrix is symmetric with trace 13 and determinant 36, and its eigenvalues are exactly 4 and 9 |
| TestMatrices.Moler | Code/trunk/cpp/LinearAlgebra/Matrices.hpp:97-103 | the 3-by-3 matrix of Moler's example, entry for entry |
| GnuplotSessions.Find | Code/branches/PHYSOR/cpp/Gnuplot/gnuplot_i.cc:1273-1286 | std::string::find: the first position where the word occurs, or none when it occurs nowhere |
| GnuplotSessions.OccursContains | Code/branches/PHYSOR/cpp/Gnuplot/gnuplot_i.cc:1273 | a word occurring at some position is found |
| GnuplotSessions.ContainsSelf | Code/branches/PHYSOR/cpp/Gnuplot/gnuplot_i.cc:323-351 | every word is found in itself |
| GnuplotSessions.ContainsInner | Code/branches/PHYSOR/cpp/Gnuplot/gnuplot_i.cc:1273-1286 | a word inside a word found in s is found in s |
| GnuplotSessions.FirstNotOf | Code/branches/PHYSOR/cpp/Gnuplot/gnuplot_i.cc:151 | find_first_not_of: every character skipped is a delimiter and the one found is not |
| GnuplotSessions.FirstOf | Code/branches/PHYSOR/cpp/Gnuplot/gnuplot_i.cc:157 | find_first_of: every character skipped is not a delimiter and the one found is |
| GnuplotSessions.Split | Code/branches/PHYSOR/cpp/Gnuplot/gnuplot_i.cc:141-173 | a string splits into at least one piece |
| GnuplotSessions.StripAppend | Code/branches/PHYSOR/cpp/Gnuplot/gnuplot_i.cc:141-173 | removing delimiters distributes over concatenation |
| GnuplotSessions.StripPlain | Code/branches/PHYSOR/cpp/Gnuplot/gnuplot_i.cc:141-173 | a string free of delimiters is unchanged by removing them |
| GnuplotSessions.SplitPlain | Code/branches/PHYSOR/cpp/Gnuplot/gnuplot_i.cc:141-173 | no piece holds a delimiter |
| GnuplotSessions.SplitPieces | Code/branches/PHYSOR/cpp/Gnuplot/gnuplot_i.cc:141-173 | the pieces together spell the string without its delimiters |
| GnuplotSessions.NonEmptyKeeps | Code/branches/PHYSOR/cpp/Gnuplot/gnuplot_i.cc:141-173 | dropping empty pieces keeps the others and their concatenation |
| GnuplotSessions.TokensOfString | Code/branches/PHYSOR/cpp/Gnuplot/gnuplot_i.cc:141-173 | the tokens are non-empty, free of delimiters, and in order spell the string with its delimiters removed |
| GnuplotSessions.NoTokens | Code/branches/PHYSOR/cpp/Gnuplot/gnuplot_i.cc:148 | the empty string has no tokens |
| GnuplotSessions.SkipDelimiters | Code/branches/PHYSOR/cpp/Gnuplot/gnuplot_i.cc:150-154 | skipping leading delimiters does not change the tokens |
| GnuplotSessions.TokenAt | Code/branches/PHYSOR/cpp/Gnuplot/gnuplot_i.cc:156-169 | a run of non-delimiters ended by a delimiter or the end of the string is the first token, the rest following after the delimiter |
| GnuplotSessions.Stringtok | Code/branches/PHYSOR/cpp/Gnuplot/gnuplot_i.cc:141-173 | the container gains exactly the tokens of the string, in order, after its previous contents |
| GnuplotSessions.StyleKept | Code/branches/PHYSOR/cpp/Gnuplot/gnuplot_i.cc:321-361 | the kept style names a known style, is the request exactly when the request names one (or is "points") and "points" otherwise, and asking again for it keeps it |
| GnuplotSessions.PlotWords | Code/branches/PHYSOR/cpp/Gnuplot/gnuplot_i.cc:1273-1286 | "replot" and "splot" commands contain "plot" |
| GnuplotSessions.FileExists | Code/branches/PHYSOR/cpp/Gnuplot/gnuplot_i.cc:1447-1475 | a mode outside 0..7 is an error, exactly; otherwise the answer is whether the file is accessible |
| GnuplotSessions.TmpFileCounter.constructor | Code/branches/PHYSOR/cpp/Gnuplot/gnuplot_i.cc:97 | the shared count of temporary files starts at zero |
| GnuplotSessions.Session.constructor | Code/branches/PHYSOR/cpp/Gnuplot/gnuplot_i.cc:190-194 | the successfully initialised session is valid, shows no plot, owns no file, and keeps StyleFor of the requested style |
| GnuplotSessions.Open | Code/branches/PHYSOR/cpp/Gnuplot/gnuplot_i.cc:1309-1360 | opening fails exactly when the display is missing, gnuplot is not found or the pipe does not open, with the error of the first failing test in that order; otherwise it yields a fresh valid empty session with the requested style |
| GnuplotSessions.Session.Cmd | Code/branches/PHYSOR/cpp/Gnuplot/gnuplot_i.cc:1257-1289 | an invalid session changes nothing; a valid one adds one plot for any command containing "plot", three-dimensional for "splot", two-dimensional for a plain "plot", dimension unchanged for "replot" |
| GnuplotSessions.Session.SetStyle | Code/branches/PHYSOR/cpp/Gnuplot/gnuplot_i.cc:321-361 | the style becomes StyleFor of the request |
| GnuplotSessions.Session.ResetPlot | Code/branches/PHYSOR/cpp/Gnuplot/gnuplot_i.cc:300-314 | no plot and no owned file remain, and the shared count drops by the files given up, the files of other sessions unchanged |
| GnuplotSessions.Session.CreateTmpfile | Code/branches/PHYSOR/cpp/Gnuplot/gnuplot_i.cc:1483-1538 | at a count of GP_MAX_TMP_FILES − 1 the limit error, else the creation error when the file system fails, else the file is owned and counted; a count below the limit stays below it |


## Left out

- Floating point: every `double` is an exact real. Rounding, overflow to infinity and NaN are not modelled, and neither are the `%G` formats of the printed output.
- Square roots are not modelled. These report the variance, the value under the root, in place of the standard deviation:
  - `Utilities.StdDevMean`;
  - `PowerMethod.CalcMeanVector`;
  - `PowerMethod.Power.StdDevValues`;
  - `ArnoldiMonteCarlo.ValueStats`, reached through `ArnoldiMonteCarlo.ArnoldiMC.FinishRestart`.
- Figures of merit, 1/(σ²·t), depend on the square root and the clock. `PowerMethod.Power.Iteration`, `ArnoldiMonteCarlo.ArnoldiMC.RecordIteration` and `ArnoldiMonteCarlo.ArnoldiMC.FinishRestart` do not keep the FOM lists.
- Clocks, the process id, /dev/urandom, printing and verbosity: elapsed times are parameters, and nothing is printed.
- Random draws are parameters: the roulette draws, the site and position draws, and the stochastic-rounding draw of the power method. So is the flight sampling of a history (distance and direction).
- LinearSpace::sample: the inverse-CDF draw of a position inside a zone (Code/trunk/cpp/FissionSource/LinearSpaceSource.cpp:13-26) takes a square root. `LinearSpaceSources.LinearSpaceSource.Sample` takes the sampled position as a parameter.
- Shannon entropy takes logarithms. The entropy of each cycle is a parameter of `PowerMethod.Power.Iteration`, `ArnoldiMonteCarlo.ArnoldiMC.RecordIteration` and `ArnoldiMonteCarlo.ArnoldiMC.FinishRestart`.
- The numerical kernels are a `Kernels` parameter of Arnoldi's method:
  - LAPACK's dense eigensolver (geev);
  - the shifted QR algorithm;
  - the Euclidean norm;
  - the complex modulus;
  - the operator itself.
- The mean Ritz vectors and per-restart eigenvector estimates of Monte Carlo Arnoldi's method are not modelled: MeanVector, MeanRestartVector, VectorEst, MeanValues and Values (Code/trunk/cpp/Markov/ArnoldiMC.h:675-800).
- The EigenvaluesEst and RitzvectorsEst stores are not kept.
- ArnoldiMonteCarlo.ArnoldiMC.FinishRestart: the dominant eigenvalue estimate is a parameter. It is not taken from the last Ritz value of the model's Arnoldi state (Code/trunk/cpp/Markov/ArnoldiMC.h:535).
- ArnoldiMonteCarlo.ArnoldiMC.Start: models the set-up that ArnoldiMC::RAM does before handing over to Arnoldi<double>::RAM. The hand-over, with source.PDF() as the start vector, is not connected to `ArnoldiMethod.Arnoldi.RAM`: the two classes are modelled side by side, not by inheritance.
- ArnoldiMonteCarlo.ArnoldiMC.Av: the transport of the product is not connected to `MarkovTransport`. The next source's distribution and the current magnitude are parameters.
- The linear-space specialisation of ArnoldiMC::_CalcEntropy (Code/trunk/cpp/Markov/ArnoldiMC.h:406-425) rebuilds a source to take its entropy. It is not modelled, since the entropy is a parameter.
- The power() driver loop (Code/trunk/cpp/Markov/Power.h:182-209) runs `PowerMethod.Power.Begin`, the inactive `PowerMethod.Power.Iteration`s, `PowerMethod.Power.Activate` and the active iterations. It is not a method of its own: each cycle's inputs depend on the estimate of the cycle before.
- The HistSource specialisations of the power method's _score and _VectorStats (Code/trunk/cpp/Markov/Power.h:272-280, 308-317) are not modelled. The model follows the BankSource power method.
- PowerMethod.BankedCount: the conversion to a 32-bit `int` is modelled as truncation toward zero on an unbounded integer. Overflow of a count above 2^31 − 1 is not modelled.
- ArnoldiMonteCarlo.ArnoldiMC.RecordIteration: `_rHistories` and `_tracks` are unbounded naturals. Their 32-bit unsigned wrap-around is not modelled.
- ArnoldiMonteCarlo.ArnoldiMC.Av: the same applies to the tracked count.
- Mt19937.Generator.StepCount: the long long count is an unbounded integer. Overflow past 2^63 is not modelled.
- ArnoldiMethod.Arnoldi.Normalize: a zero vector returns ok = false. The source divides by a zero norm (Code/trunk/cpp/LinearAlgebra/Arnoldi.h:331-335), giving infinities and NaNs that exact reals cannot represent.
- ArnoldiMethod.Arnoldi.RAM requires `iters <= wanted || 0 < wanted || (m == Explicit && 2 <= iters)`, and `ArnoldiMethod.Arnoldi.Restart` requires `0 < n` for implicit restarts and `2 <= I`.
  - With implicit restarts the source accepts n = 0, where `_k = _n - 1` (Code/trunk/cpp/LinearAlgebra/Arnoldi.h:258) wraps around as an unsigned number and the next factorisation indexes far outside the matrices. That path is excluded.
  - With one iteration per restart (I = 1), the factorisation's loop (Arnoldi.h:205-211) starts at k = 1 and never meets k = I − 1. That path is excluded too.
  - Explicit restarts with n = 0 are modelled. The new start vector is zero, so the next fresh start reports a breakdown (`ArnoldiMethod.FreshStart` with ok false), where the source divides by a zero norm.
- BankSources.BankSource.FromBins requires the bins to have a non-zero sum, because the source divides by that sum. The same holds for `LinearSpaceSources.LinearSpaceSource.MakeDistributionFunctions` and `Utilities.Norm`. A zero sum gives NaNs in the source.
- PowerMethod.Power.Iteration requires a non-zero eigenvalue estimate, a positive number of histories and, in an active cycle, a non-zero norm of the cycle's histogram. The source divides by each of these (Code/trunk/cpp/Markov/Power.h:218 and 267, and the normalisation of the cycle vector), and a zero gives infinities or NaNs.
- PowerMethod.Power.Iteration takes the cycle's collisions (the weighted positions scored into the next source) and the random draws that resample it as parameters; so do `PowerMethod.Cycle` and `PowerMethod.Power.Transport`. They are not tied to the histories `MarkovTransport.Markov.Transport` tracks from the current source (Code/trunk/cpp/Markov/Power.h:215), so the model does not capture that the next source is the one those histories produce.
- LinearSpaces.PostScored requires a non-zero history count n, because the fit divides the moments by n. The same requirement is on `LinearSpaces.PostScoringMoments` and `LinearSpaces.LinearSpace.PostScoring`. A zero count gives NaNs in the source.
- CheckedIterators.CheckedIterator.Over: the container-only constructor (Code/trunk/cpp/Geometry/Misc/Iterator.hh:128-131) leaves the underlying iterator value-initialised, which is a singular iterator that must not be moved or compared. The model places it at offset 0, the container's begin(), so it does not capture the undefined behaviour of using it before assignment.
- Utilities.StdDevMean requires a non-empty sample, because the source divides by the sample size.
- HistSources.HistSource.Sample requires some cumulative value to reach the draw. Otherwise the source's search runs past the last bin (Code/trunk/cpp/FissionSource/HistSource.cpp:64-66) and reads past the end.
- HistSources.Geometry: a source mesh's left node is non-negative. The mesh constructors accept any left node (Code/trunk/cpp/Geometry/CartesianMesh/OneD/CartesianMesh1D.hh:132-139), and positions below zero are outside the histogram and linear-space sources of this model.
- LinearSpaceSources.LinearSpaceSource.Sample requires the same, for the same reason.
- Fields.Field.AssignConverted requires the source field to be no longer than the target. The source writes past the end of the target's container otherwise (Code/trunk/cpp/Geometry/Field/Field.hh:249-260).
- TestMatrices.Standard requires at least three rows and two columns, because the source writes A(2,1).
- TestMatrices.Watkins and TestMatrices.Moler return new matrices. The source resizes the argument.
- CartesianMesh.NewMesh and CartesianMesh.NewUniformMesh require, only when the zone lengths pass their common-sense checks, fewer ghost zones than real zones (or none). The source builds the ghost elements after those checks, under the Assert at Code/trunk/cpp/Geometry/CartesianMesh/OneD/CartesianMesh1D.cc:303, which aborts; the model does not capture the abort.
- The connectivity of ghost elements to their neighbours (mConnectLeftGhostElements and mConnectRightGhostElements, Code/trunk/cpp/Geometry/CartesianMesh/OneD/CartesianMesh1D.cc:433-588) is not modelled. Ghost zones, nodes and corners are modelled with their ids and the real elements they mirror.
- MarkovTransport.Markov.Transport: the batch does not call the _preSample and _postSample hooks (Code/trunk/cpp/Markov/Markov.h:112-132). For a histogram source those hooks build the CDF, and for a linear-space source they normalise it before sampling and post-score it after the batch. Those steps are modelled on their own as `HistSources.HistSource.MakeCdf`, `LinearSpaceSources.LinearSpaceSource.Normalize` and `LinearSpaceSources.LinearSpaceSource.PostScoring`, and the batch samples from given sites.
- MarkovTransport.TrackHistory: the roulette test at Code/trunk/cpp/Markov/Markov.h:145 calls an unqualified abs on the weight. Depending on the headers the compiler sees, that call may resolve to the integer overload, which truncates the weight and sends every history with |weight| < 1 to roulette. The model, like `MarkovTransport.Tracked`, takes the real absolute value of the weight.
- The 64-bit Mersenne Twister and the SFMT variants of RandomLib are not modelled, nor are the SSE2 code paths or the Power2 tables. Only the 32-bit generator is.
- The 64-bit self-test of RN_init_problem (Code/branches/Pre-Prospectus/cpp/src/mcnp_random.cpp:333-341) is not modelled. It compares against a floating-point pow(5.0, 25), whose rounding is outside the model.
- The period of the LCG is not proved.
- Saving and loading generator state to streams is not modelled. Only the word format and the checksum are.
- The gnuplot wrapper's I/O is not modelled:
  - opening the pipe (popen and the search for the executable);
  - writing commands;
  - removing temporary files;
  - the destructor;
  - the plotting calls that write data files.
  
  Whether a display is set, whether gnuplot was found, whether the pipe opened and whether the file system created a file are parameters.
- GnuplotSessions.Open: the three failures of the initialisation, which the source throws as GnuplotException (Code/branches/PHYSOR/cpp/Gnuplot/gnuplot_i.cc:1314-1353), are its `Err` results. The message texts and the Apple-only checkForX11 branch are not modelled: the display test is the Unix one. The terminal command sent after the pipe opens is left out with the rest of the I/O.
- GnuplotSessions.MaxTmpFiles is 64, the Unix value. The Windows build uses 27 (Code/branches/PHYSOR/cpp/Gnuplot/gnuplot_i.cc:72-86).

## Findings

| source | as written | input that shows it | evidently intended | confidence | as-written member | corrected member |
|---|---|---|---|---|---|---|
| Code/trunk/cpp/Geometry/CartesianMesh/OneD/CartesianMesh1D.cc:165-166 | NegativeZone1DLength records distance(neg_zone_iter, zone_lengths.begin()), the distance from the bad zone back to the first one, which is minus its index; the exception keeps it in its unsigned 32-bit zone id (MeshExcept.hh:502, GeomId.hh:47), so it wraps to 2^32 minus the index | zone lengths [2, -1] with area 1: the error reports zone 4294967295 | the index of the first non-positive zone (1 here) | not executed | CartesianMesh.LengthsChecksAsWritten, CartesianMesh.NegatedZoneIndex | CartesianMesh.LengthsChecksReject |
