# gotoken subtoken extraction in Dafny

This project models the subtoken extractor of the Go library gotoken. A
`SmartToken` scans a token rune by rune. It reports a boundary wherever the
rune class changes: letter, digit, punctuation, or none of these. Between two
letters, it also reports one where the index of the first registered Unicode
range table holding the letter changes. Boundary offsets, and then the
token's length, go through a fixed-capacity circular buffer of `depth + 1`
ints. Every slice between the oldest buffered offset and a later one becomes a
key of the result map, with value `true`. A separate `PolicyDepth` maps a
token length to a depth: a clamped linear interpolation.

The project has four modules:

- `CircularBuffers` (`circularbuffer.dfy`) models circularbuffer.go. It is a
  class over an `array<int>` with `shift` and `size` fields and a ghost
  `Contents` sequence tied to the ring by `Valid()`. The specification
  function `Pushed` and the lemmas about `PushAll` describe what a sequence of
  pushes leaves behind.
- `DepthPolicy` (`policy_depth.dfy`) models policy_depth.go. It is pure:
  a datatype and functions, with lemmas for each branch, the bounds and
  monotonicity.
- `SmartTokens` (`smarttoken.dfy`) models smarttoken.go, in two parts.
  - The specification: `RuneClassOf`, `TableIndex`, the scan state
    `StateAfter`, the boundary list `Boundaries`, the edge list `Edges` and the
    key set `SubtokenKeys`. `SubtokenKeys` is every slice between two edges at
    most `depth` edges apart.
  - The class `SmartToken`, whose methods update its fields as the Go methods
    do. `GetSubtokensWithDepth` drives the real `CircularBuffer` and fills the
    map in place. Its postcondition says that the map's keys are exactly
    `SubtokenKeys` and that every value is `true`.
- `SmartTokenExamples` (`smarttoken_examples.dfy`) works out test cases of
  smarttoken_test.go with concrete range tables.

Modelling choices:

- A rune is a `char` and a token is a `seq<char>`.
- A `*unicode.RangeTable` is the set of code points it covers.
- `unicode.IsLetter`, `IsDigit` and `IsPunct` are the three sets of a
  `Unicode` value passed as a parameter.
- Offsets are rune indices. Go uses byte offsets, but both mark the same
  positions, because every offset the source records is the start of a rune or
  the end of the token. So the keys are the same strings.

## Model

| member | source | states |
|---|---|---|
| CircularBuffers.CircularBuffer.constructor | circularbuffer.go:9-15 | makeCircularBuffer(n): a fresh array of length n, shift 0, no contents, representation invariant established |
| CircularBuffers.CircularBuffer.Full | circularbuffer.go:17-19 | true exactly when the number of values held equals the capacity |
| CircularBuffers.CircularBuffer.Empty | circularbuffer.go:21-23 | true exactly when no value is held |
| CircularBuffers.CircularBuffer.Pop | circularbuffer.go:25-30 | removes exactly the oldest value; on an empty buffer nothing changes; the ring invariant is kept |
| CircularBuffers.CircularBuffer.Push | circularbuffer.go:32-38 | contents q become q + [v], or q[1..] + [v] when the buffer was full; same array, invariant kept |
| CircularBuffers.CircularBuffer.Extract | circularbuffer.go:40-47 | on a non-empty buffer returns the oldest value and the remaining values in insertion order, changing nothing |
| CircularBuffers.PushKeepsNewest | circularbuffer.go:32-38 | one push onto a buffer holding the newest values of w leaves the newest values of w + [v] |
| CircularBuffers.PushAllKeepsNewest | circularbuffer.go:32-38 | the same for any sequence of pushes |
| CircularBuffers.PushAllFromEmpty | circularbuffer.go:32-38 | after k pushes into a fresh buffer it holds the last min(k, capacity) pushed values, in push order |
| DepthPolicy.NewPolicyDepth | policy_depth.go:10-17 | the four arguments are stored unchanged, min and max never swapped |
| DepthPolicy.TruncDiv | policy_depth.go:28 | the quotient is rounded toward zero, as Go's int() conversion of a float does |
| DepthPolicy.TruncDivBetween | policy_depth.go:28 | truncating a value between two scaled bounds keeps it between the bounds |
| DepthPolicy.TruncDivMonotone | policy_depth.go:28 | truncated division is monotone in the numerator |
| DepthPolicy.InterpolatedBetween | policy_depth.go:28 | between the two lengths the interpolated value lies between minDepth and maxDepth |
| DepthPolicy.GetDepth | policy_depth.go:19-29 | between maxLength and minLength (exclusive) the depth is the interpolation minDepth + (maxDepth - minDepth) * (minLength - length) / (minLength - maxLength), computed exactly and rounded toward zero; the two clamped branches are GetDepthShort and GetDepthLong |
| DepthPolicy.GetDepthShort | policy_depth.go:21-22 | length <= maxLength gives maxDepth, tested first |
| DepthPolicy.GetDepthLong | policy_depth.go:23-24 | length > maxLength and length >= minLength gives minDepth |
| DepthPolicy.GetDepthBounded | policy_depth.go:19-29 | with minDepth <= maxDepth every result lies in [minDepth, maxDepth] |
| DepthPolicy.GetDepthNonNegative | policy_depth.go:19-29 | with 0 <= minDepth <= maxDepth no depth is negative |
| DepthPolicy.GetDepthNonIncreasing | policy_depth.go:19-29 | with minDepth <= maxDepth a longer length never gets a larger depth |
| DepthPolicy.TestPolicyDepth | policy_depth_test.go:9-31 | policy (20, 100, 120, 10): 100 on 1..20, non-increasing and at most 100 on 21..120, 10 on 120..140, 55 at length 70 |
| SmartTokens.RuneClassOf | smarttoken.go:25-35 | letter before digit before punctuation; Undef exactly when the rune is in none of the three categories |
| SmartTokens.TableIndexFirstMatch | smarttoken.go:37-44 | the table index lies in [-1, number of tables); it is the smallest index of a table holding the rune, and -1 exactly when none does |
| SmartTokens.SmartToken.GetTableIndex | smarttoken.go:37-44 | the loop returns the first matching index or -1, in range, and equals TableIndex |
| SmartTokens.SmartToken.constructor | smarttoken.go:10-14 | the Go zero value: no tables, index 0, class 0 (letter) |
| SmartTokens.SmartToken.AddRangeTable | smarttoken.go:16-18 | appends the table at the end of the list, so earlier tables keep their indices; the scan state is unchanged |
| SmartTokens.SmartToken.Flush | smarttoken.go:20-23 | the state becomes (Undef, -1) and the table list is unchanged |
| SmartTokens.SmartToken.PushRune | smarttoken.go:46-61 | returns true exactly when the class changes or a letter's table index changes; the class becomes the rune's; the index moves only on letters |
| SmartTokens.StateAfterLast | smarttoken.go:46-61 | after a scan, the class is the last rune's class; after a letter, the index is that letter's table index |
| SmartTokens.BoundariesAreLocal | smarttoken.go:46-61 | a boundary is reported at k exactly when rune k differs in class from rune k - 1, or both are letters from different tables; at 0, exactly when the first rune has a class |
| SmartTokens.FirstRuneBoundary | smarttoken.go:20-23 | because flush stores Undef, a token whose first rune is no letter, digit or punctuation has no boundary at offset 0, and any other token does |
| SmartTokens.BoundariesByNeighbours | smarttoken.go:64-69 | the boundaries of every prefix are determined pairwise by neighbouring runes |
| SmartTokens.SegmentIsOneRun | smarttoken.go:67-77 | every rune of a segment has the class (and, for letters, the table) of the segment's first rune |
| SmartTokens.ScanStep | smarttoken.go:67-69 | one more rune moves the state by pushRune and appends its offset to the boundaries exactly when pushRune reports one |
| SmartTokens.BoundariesIncrease | smarttoken.go:67-69 | boundary offsets are strictly increasing offsets of runes of the token |
| SmartTokens.BoundariesInToken | smarttoken.go:67-69 | the boundaries of a prefix are offsets into the whole token |
| SmartTokens.Edges | smarttoken.go:66-78 | the offsets pushed into the buffer (boundaries, then len(token)) are strictly increasing, in range, and end with len(token) |
| SmartTokens.SmartToken.ScanRune | smarttoken.go:67-77 | one loop iteration keeps the scan invariant: state, boundaries, buffer holding the newest depth + 1 of them, keys of all completed windows |
| SmartTokens.Enqueue | smarttoken.go:69-75 | a pushed boundary leaves the newest depth + 1 offsets in the buffer and, when the buffer is full, adds the oldest offset's window |
| SmartTokens.WindowsBeforePush | smarttoken.go:69-71 | when a push fills the buffer, the windows closed so far are unchanged by the new offset |
| SmartTokens.CloseRow | smarttoken.go:70-75 | extracting from a full buffer adds exactly the row of slices of its oldest offset |
| SmartTokens.RecordRow | smarttoken.go:72-74 | the inner loop adds the slice from left to each right offset, all values true |
| SmartTokens.RowNext | smarttoken.go:72-74 | one more right offset adds exactly its slice |
| SmartTokens.WindowsLast | smarttoken.go:79-85 | once the last edge is reached, the windows of n left edges are those of n - 1 plus the whole row of edge n - 1 |
| SmartTokens.WindowsPrefix | smarttoken.go:70-75 | windows already closed do not change when later edges are pushed |
| SmartTokens.Finish | smarttoken.go:78-85 | pushing len(token) and draining gives exactly the slices between edges at most depth apart |
| SmartTokens.Drain | smarttoken.go:79-85 | the drain loop empties the buffer, making each remaining offset the left end of its row once |
| SmartTokens.DrainStep | smarttoken.go:80-84 | one drain round moves the buffer from edges[t..] to edges[t+1..] and adds exactly the row of edge t |
| SmartTokens.SmartToken.GetSubtokensWithDepth | smarttoken.go:63-87 | the map's keys are exactly SubtokenKeys(token, depth), every value is true, the table list is unchanged, and the state is the scan's final state |
| SmartTokens.KeysAreEdgeSlices | smarttoken.go:66-86 | every key is non-empty and is token[l..r], with l a boundary, r a later edge, and at most depth segments between them |
| SmartTokens.EdgeSliceIsKey | smarttoken.go:78-85 | every slice between edges at most depth apart is a key; with depth >= 1 every single segment is one |
| SmartTokens.NoKeys | smarttoken.go:66-86 | depth 0 or the empty token gives no keys |
| SmartTokenExamples.WordKeys | smarttoken_test.go:53-58 | "hello" at depth 10 gives exactly {"hello"} |
| SmartTokenExamples.ScriptsKeys | smarttoken_test.go:90-101 | "aаaа" (Latin and Cyrillic letters alternating) at depth 10 gives exactly the 7 listed keys |
| SmartTokenExamples.LettersKeys | smarttoken_test.go:198-228 | "a.b.c.d" at depth 10 gives exactly the 26 listed keys, and the test's policy gives depth 10 |
| SmartTokenExamples.WordsKeys | smarttoken_test.go:229-256 | "aaa.bbb.ccc.ddd" at depth 5 gives exactly the 23 listed keys, and the policy gives depth 5 |
| SmartTokenExamples.EllipsesKeys | smarttoken_test.go:257-272 | "aaa...bbb...ccc...ddd" at depth 2 gives exactly the 11 listed keys, and the policy gives depth 2 |
| SmartTokenExamples.SymbolFirstKeys | smarttoken.go:20-23 | for "☭hello", the flushed state makes the leading symbol no boundary, so the only key is "hello" |

## Left out

- UTF-8: offsets are rune indices rather than byte offsets, and invalid UTF-8 (decoded as U+FFFD of width 1) is not modelled. Key strings are unaffected for valid UTF-8.
- Unicode data: the real `unicode.L`, `unicode.Nd`, `unicode.P`, `unicode.Latin` and `unicode.Cyrillic` tables are not part of this model. The SmartTokens lemmas hold for any category sets and tables. The examples use small fragments that cover their runes.
- DepthPolicy.GetDepth: float64 rounding and int overflow are not modelled. The middle branch is the exact rational value truncated toward zero.
- The `SmartTokenPolicy` interface that `NewPolicyDepth` returns is not part of this model. `NewPolicyDepth` returns the `PolicyDepth` value itself.
- `SetDepthPolicy`, `getDepth` and `TokenizeString`, which smarttoken_test.go calls, are not part of this model. The examples state the depth the test's policy would give by rune count, where that agrees with the byte length.
- The "other-first" cases of smarttoken_test.go:174-197 ("☭hello", "☭123", "☭...") expect the symbol as a separate key. The code records no boundary at a leading rune of class Undef, so the model follows the code; SmartTokenExamples.SymbolFirstKeys shows the result.
- SmartTokens.SmartToken.GetSubtokensWithDepth: requires depth >= 0. In Go, depth = -1 makes push take a remainder by zero, and smaller depths make `make` panic.
- CircularBuffers.CircularBuffer.Push: requires capacity >= 1, because Go takes a remainder by the capacity.
- CircularBuffers.CircularBuffer.Extract: requires a non-empty buffer, because Go's `make([]int, size-1)` panics when size is 0.
- The body of GetSubtokensWithDepth is split into helper methods (`ScanRune`, `Enqueue`, `CloseRow`, `RecordRow`, `Finish`, `Drain`, `DrainStep`). They follow its statements in order and operate on the same buffer and map.
- Go map semantics are modelled as a `map` whose values are all `true`. Iteration order is not modelled.
