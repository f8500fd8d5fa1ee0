# ProtoWireType wire-type decoder

A Dafny model of the `ProtoWireType` enum from the kotlinx.serialization
parse-proto-type benchmark. The enum maps a raw Kotlin `Int` tag to one of
the Protocol Buffers wire types listed in the "Message Structure" section of
the Protocol Buffers encoding documentation: VARINT = 0, i64 = 1,
SIZE_DELIMITED = 2 and i32 = 5. Anything else maps to the sentinel `INVALID`,
whose own code is -1. The deprecated group types 3 and 4 are not members.

The benchmark compares five ways of decoding a tag:

- `FromDefaultImpl` is the reference. It scans the entries in declaration order and takes the first one whose code matches.
- `FromSwitch` is a `when` chain.
- `FromArray` reads a bounds-checked 8-entry table.
- `FromShortArray` reads a bounds-checked 6-entry table.
- `FromArrayLowerBits` reads the 8-entry table at `typeId and 7`, with no bounds check.

Both tables are built once, by running the reference decoder on every index.

Files:

- `kotlin_int.dfy` (module `KotlinInt`): Kotlin's 32-bit `Int`. It also defines `and 7` as a bitwise AND on the two's-complement bit pattern. A proof shows this mask equals the Euclidean remainder `x % 8`, for negative `x` too.
- `wire_type.dfy` (module `WireType`): the enum, its codes, the ordered `entries`, Kotlin's `find`, the two tables, the five decoders, and the lemmas relating them.
- `benchmark.dfy` (module `BenchmarkCallForms`): the call forms that the five benchmark methods use.

What is proved:

- `FromSwitch`, `FromArray` and `FromShortArray` agree with the reference on every 32-bit input.
- Both guarded table reads stay in bounds. The verifier checks every sequence index.
- The masked read stays in bounds with no guard, because the mask lies in [0, 8).
- The masked read agrees with the guarded 8-entry read of the masked input. It departs from the reference exactly when the input is outside [0, 8) and its low three bits form a wire-type code. For example, 8 decodes as VARINT and 13 as i32.
- On every benchmark input in [0, 255), the five call forms decode to the same wire type.

All the decoders are pure functions. So calling one twice with the same input gives the same answer, and rebuilding a table yields the same contents. Dafny's semantics guarantee both, so neither has a lemma of its own.

Names follow the Kotlin code: `i64`, `SIZE_DELIMITED` and `i32`, not FIXED64, LENGTH_DELIMITED and FIXED32. The code also gives `INVALID` the code -1. So for input -1 the reference scan really matches the first entry, `INVALID`. It does not fall through to the `?: INVALID` default. For every other non-code it does fall through. `FromDefaultImplResults` states both paths.

## Model

| member | source | states |
|---|---|---|
| `KotlinInt.Unsigned32` | src/commonMain/kotlin/ParseProtoTypeBenchmark.kt:38 | The 32-bit two's-complement pattern of an `Int`: below 2^32, congruent to the input modulo 2^32, and the identity on non-negative inputs |
| `KotlinInt.BitAnd` | src/commonMain/kotlin/ParseProtoTypeBenchmark.kt:38 | The bitwise `and` of two non-negative numbers is no larger than either operand |
| `KotlinInt.BitAndLowMask` | src/commonMain/kotlin/ParseProtoTypeBenchmark.kt:38 | ANDing with 2^k - 1 keeps the low k bits, that is, gives the remainder modulo 2^k |
| `KotlinInt.Low3Bits` | src/commonMain/kotlin/ParseProtoTypeBenchmark.kt:38 | `typeId and 7` always lies in [0, 8) and equals the Euclidean `typeId % 8`, for negative inputs too |
| `WireType.TypeIdInjective` | src/commonMain/kotlin/ParseProtoTypeBenchmark.kt:6-11 | The codes -1, 0, 1, 2, 5 of the five entries are pairwise distinct |
| `WireType.EntriesListEveryEntryOnce` | src/commonMain/kotlin/ParseProtoTypeBenchmark.kt:6-12 | `entries` contains every entry, and contains each exactly once |
| `WireType.Find` | src/commonMain/kotlin/ParseProtoTypeBenchmark.kt:24 | `find` returns nothing exactly when no element has the code. Otherwise it returns an element with that code, and no earlier element has that code |
| `WireType.FromDefaultImpl` | src/commonMain/kotlin/ParseProtoTypeBenchmark.kt:23-25 | The result is a non-sentinel entry exactly when the input is 0, 1, 2 or 5, and then the entry's code is the input |
| `WireType.FromDefaultImplResults` | src/commonMain/kotlin/ParseProtoTypeBenchmark.kt:6-25 | The reference returns VARINT, i64, SIZE_DELIMITED and i32 for 0, 1, 2 and 5, and INVALID otherwise. For -1 the scan matches INVALID itself. For any other non-code the scan finds nothing |
| `WireType.BuildTable` | src/commonMain/kotlin/ParseProtoTypeBenchmark.kt:15-21 | `Array(n) { find ... ?: INVALID }` has length n, and entry i is the reference decoder's answer for i |
| `WireType.StaticEntriesContents` | src/commonMain/kotlin/ParseProtoTypeBenchmark.kt:15-17 | `staticEntries` is VARINT, i64, SIZE_DELIMITED, INVALID, INVALID, i32, INVALID, INVALID |
| `WireType.ShortEntriesContents` | src/commonMain/kotlin/ParseProtoTypeBenchmark.kt:19-21 | `shortEntries` is the first six entries of `staticEntries`, ending in i32 |
| `WireType.FromArray` | src/commonMain/kotlin/ParseProtoTypeBenchmark.kt:27-30 | Agrees with the reference on every input. Inputs outside [0, 8) give INVALID without indexing, and every index read is in bounds |
| `WireType.FromShortArray` | src/commonMain/kotlin/ParseProtoTypeBenchmark.kt:32-35 | Agrees with the reference on every input. Inputs outside [0, 6), 6 and 7 among them, give INVALID without indexing, and every index read is in bounds |
| `WireType.FromArrayLowerBits` | src/commonMain/kotlin/ParseProtoTypeBenchmark.kt:37-39 | The unguarded read is in bounds for every `Int`. It equals `fromArray(typeId and 7)`, which is the reference decoder's answer for `typeId % 8` |
| `WireType.FromSwitch` | src/commonMain/kotlin/ParseProtoTypeBenchmark.kt:41-47 | The `when` chain agrees with the reference on every input |
| `WireType.LowerBitsAliasing` | src/commonMain/kotlin/ParseProtoTypeBenchmark.kt:37-39 | The masked lookup repeats with period 8. 8 gives VARINT and 13 gives i32, where `fromArray` gives INVALID. -1 gives INVALID |
| `WireType.LowerBitsAgreesWithReference` | src/commonMain/kotlin/ParseProtoTypeBenchmark.kt:37-39 | The masked lookup differs from the reference exactly when the input is outside [0, 8) and its low three bits are a wire-type code. Inside [0, 8) the two agree |
| `BenchmarkCallForms.CallFormsAgree` | src/commonMain/kotlin/ParseProtoTypeBenchmark.kt:57-93 | For every input in [0, 255), the reference, the switch and both guarded lookups on `v and 7`, and the masked lookup on raw `v`, all decode to the same wire type |

## Left out

- The `ParseProtoTypeBenchmark` class (src/commonMain/kotlin/ParseProtoTypeBenchmark.kt:51-95) is not modelled beyond its call forms. Its benchmark annotations, the `Blackhole` sink, the `forEach` walks and the wall-clock timing belong to the benchmark harness, and this model has no time.
- `Random.nextInt(0, 255)` input generation (line 58) is a nondeterministic foreign call. The model treats an input only as some value in [0, 255), as the precondition of `CallFormsAgree` does.
- Performance characteristics, such as branch prediction and cache effects, cannot be stated in Dafny.
- Kotlin's nullable result of `find` is modelled as an `Option`. The array tables are modelled as immutable sequences, because they are never written after construction.
