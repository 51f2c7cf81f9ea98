# Memory-access pipeline simulator: verified model of its bookkeeping

The simulator times load transactions through an L1 cache, a miss-status
queue (MSQ) of a few units, and an L2 level. A scheduling library supplies
its event loop and its arbiters, and that library is not part of this
model. What is modelled here is the simulator's own code:

- the id `Pool`, a counter that hands out fresh transaction ids;
- the MSQ's unit bookkeeping: a free list and a busy list of unit ids
  `0..n-1`, changed in place by `Alloc` and `Release`;
- the miss path of `accessL1` as an interleaving of many transactions
  under an arbiter of capacity `n`, with a proof that the MSQ's assertions
  never fire there;
- the result-code and latency rules of `accessL1`, `MSQ.Access` and
  `accessL2`, with the random draws as parameters;
- the `setup` loop that issues the loads at random intervals;
- `Memory`, a bounds-checked linear array over addresses `start..end`;
- `Dep`, a parent with an ordered list of children.

Python exceptions become values. `Fault` is `AssertionError` or
`IndexError`. Calls that can raise return `Result<T>` (`Ok`/`Err`) or
`Status` (`Pass`/`Fail`). A `Response` is the code an access process
returns, with the simulated time it spent in timeouts. Random draws appear
in one of two forms. A latency drawn by `randint(a, b)` is a parameter of a
subset type holding `a..b`. A draw inside a loop is a nondeterministic
choice (`:|`) within its range. A hit/miss comparison is a `bool`
parameter.

Files:

- `common.dfy`: `Fault`, `Result`, `Status`, `Response`.
- `memory.dfy` (memory.py): `Memory`.
- `loadstore.dfy` (loadstore.py): `Pool`, `MSQ`, the access rules, `Setup`.
- `misspath.dfy` (loadstore.py): the interleaved miss path.
- `cache.dfy` (cache.py): that file's `MSQ`, access rules and `Dep`.

Behaviour of the code that the model keeps:

- `Release` returns the LAST busy unit, not the caller's own unit.
- The L1 miss path's escalation latency (`lat = 2`) is written into the
  trace and never awaited.
- In loadstore.py, `MSQ.Access` always waits 20 cycles and always returns
  code 0, whatever the L2 draw.
- In cache.py, `accessL1` never consults `accessL2`, so an L1 miss reports
  code 0.

## Model

| member | source | states |
|---|---|---|
| `Memory.SpanAt` | memory.py:10-12 | the address list `start..end` has `end - start + 1` entries (none when `end < start`) and entry `i` is `start + i` |
| `Memory.Memory.constructor` | memory.py:2-5 | a new memory keeps its bounds and its data starts empty |
| `Memory.Memory.Length` | memory.py:7-8 | `length()` is the number of values `linearize` appends (0 when negative) |
| `Memory.Memory.Check` | memory.py:18-19 | the check passes exactly when the offset `addr - start` lies in `[0, length())`, i.e. `start <= addr <= end`; otherwise it is an `AssertionError` |
| `Memory.Memory.Read` | memory.py:21-23 | `read` succeeds exactly when the check passes and `data` reaches offset `addr - start`, and then gives `data[addr - start]`; an out-of-range address raises `AssertionError`, an unfilled in-range one `IndexError` |
| `Memory.Memory.Linearize` | memory.py:10-12 | appends `start..end` in order after the old data: earlier entries unchanged, length grows by `length()`, new entry `i` is `start + i` |
| `Memory.ReadLinearized` | memory.py:10-23 | after `linearize` on an empty memory, every in-range address reads back as itself |
| `Memory.Memory.Write` | memory.py:25-27 | `write` succeeds exactly when `read` would. It then changes only `data[addr - start]`: the length and every other address's read are unchanged, and `read(addr)` gives the written value. On failure data is unchanged |
| `Memory.Memory.Rand` | cache.py:18-20 | appends `length()` values, each in `0..100`, and keeps earlier entries |
| `LoadStore.Pool.constructor` | loadstore.py:36-37 | a new pool has drawn nothing; its counter is 0 |
| `LoadStore.Pool.Draw` | loadstore.py:39-42 | returns the counter and increments it. The id is new and larger than every id drawn before, so the first draw is 0 and draws never repeat |
| `LoadStore.IotaCount` | loadstore.py:53 | `list(range(0, n))` has `n` entries and holds each unit below `n` exactly once |
| `LoadStore.PartitionSize` | loadstore.py:53-54 | when the free and busy lists together are a permutation of `0..n-1`, their lengths add up to `n` |
| `LoadStore.PartitionFacts` | loadstore.py:53-68 | such a permutation is duplicate-free, holds only units below `n`, and puts each unit below `n` in exactly one list |
| `LoadStore.AllocStep` | loadstore.py:57-62 | `Alloc` succeeds exactly when the free list is non-empty. It returns the last free unit, removes it from the free list and appends it to the busy list; on an empty free list it is an `AssertionError` that changes nothing. The units are conserved either way |
| `LoadStore.ReleaseStep` | loadstore.py:64-68 | `Release` succeeds exactly when the busy list is non-empty. It moves the last busy unit to the end of the free list and returns it; on an empty busy list it is an `AssertionError` that changes nothing. The units are conserved either way |
| `LoadStore.StepsPreservePartition` | loadstore.py:57-68 | `Alloc` and `Release` keep the two lists a permutation of `0..n-1` |
| `LoadStore.ReleaseTakesLastBusy` | loadstore.py:57-68 | from a fresh two-unit MSQ, two `Alloc`s take units 1 then 0, and the next `Release` returns unit 0, not the first caller's unit |
| `LoadStore.MSQ.constructor` | loadstore.py:50-55 | a new MSQ has `freelist == [0, ..., n-1]`, an empty busy list, and satisfies the partition invariant |
| `LoadStore.MSQ.Alloc` | loadstore.py:57-62 | changes the lists and returns exactly as `AllocStep` says, and keeps the partition invariant |
| `LoadStore.MSQ.Release` | loadstore.py:64-68 | changes the lists and returns exactly as `ReleaseStep` says, and keeps the partition invariant |
| `LoadStore.MsqAccess` | loadstore.py:71-78 | `MSQ.Access` waits 20 cycles and returns code 0 whatever the L2 draw |
| `LoadStore.AccessL1` | loadstore.py:104-132 | code 0 on every path. A hit waits 2 or 3 cycles. A miss waits exactly 20 after the grant, because the miss `lat = 2` is never awaited |
| `LoadStore.AccessL1Outcomes` | loadstore.py:104-132 | the responses `accessL1` can give are exactly code 0 with latency 2, 3 or 20, in both directions |
| `LoadStore.Setup` | loadstore.py:136-140 | issues exactly `num_transactions` loads (none when negative). The first comes within 2 cycles of time 0, each later one 0 to 2 cycles after the previous |
| `LoadStore.PacedBounds` | loadstore.py:136-140 | issue times paced that way never decrease, and the k-th issue (1-based) happens by time 2k |
| `MissPath.Init` | loadstore.py:50-54 | the starting state has every transaction waiting for the arbiter |
| `MissPath.InitInv` | loadstore.py:50-54 | a fresh MSQ with all transactions waiting satisfies the invariant: the lists are a permutation, the busy units match the transactions between `Alloc` and `Release`, and there are at most `n` grant holders |
| `MissPath.NextKeepsInv` | loadstore.py:121-130 | from a state with the invariant, a grant, an `Alloc` or a `Release` by any transaction never raises, and it keeps the invariant |
| `MissPath.RunKeepsInv` | loadstore.py:121-130 | every schedule of such steps from a state with the invariant runs without an exception and ends with the invariant |
| `MissPath.MissPathSafe` | loadstore.py:121-132 | under an arbiter of capacity `n`, for any number of transactions and any interleaving, `Alloc`'s and `Release`'s asserts never fire. The number of busy units equals the number of transactions between their `Alloc` and their `Release`, so every `Release` follows an `Alloc` that has not yet been released. At most `n` units are busy, and the free and busy lists always hold `n` units in all |
| `Cache.MSQ.constructor` | cache.py:72-76 | a new MSQ of cache.py has `freelist == [0, ..., n-1]` and an empty busy list |
| `Cache.PopOnto` | cache.py:80-81 | `pop()` then `append`: on a non-empty source it removes the last element and appends it to the destination, returning it; on an empty source it raises `IndexError` and changes nothing |
| `Cache.MSQ.Alloc` | cache.py:78-82 | the inverted assertion, then pop, append and return, as written. It never returns a unit: `AssertionError` when the free list is non-empty, `IndexError` (pop from empty) when it is empty, and both lists are left unchanged |
| `Cache.MSQ.Release` | cache.py:84-88 | the inverted assertion, then pop, append and return, as written. It never returns a unit: `AssertionError` when the busy list is non-empty, `IndexError` when it is empty, and both lists are left unchanged |
| `Cache.MsqAccess` | cache.py:92-99 | `MSQ.Access` returns code 0 after 8..12 cycles; the L2 draw is unused |
| `Cache.AccessL2` | cache.py:157-170 | code 0 exactly on a hit: a hit waits 8..12 cycles, a miss returns code 1 after 15..30 |
| `Cache.AccessL2Outcomes` | cache.py:157-170 | the responses `accessL2` can give are exactly (0, 8..12) and (1, 15..30), in both directions |
| `Cache.AccessL1` | cache.py:128-155 | code 0 on every path: a hit waits 2..3 cycles, a miss passes on `MSQ.Access`'s 8..12; the miss `lat = 2` is never awaited |
| `Cache.AccessL1Outcomes` | cache.py:128-155 | the responses `accessL1` can give are exactly code 0 with latency 2..3 or 8..12, in both directions |
| `Cache.ConcatAppend` | cache.py:64-68 | joining the texts of two child lists is the concatenation of their joined texts, in order |
| `Cache.Dep.constructor` | cache.py:57-59 | a new `Dep` has the given parent and a child list holding just the given child; it renders as `parent -> child` |
| `Cache.Dep.AddChild` | cache.py:61-62 | appends the child at the end, keeping insertion order; the rendering grows by exactly that child's text |
| `Cache.Dep.ToString` | cache.py:64-68 | `__str__` is the parent, then `" -> "`, then every child's text in order with no separator |

## Findings

| source | as written | input that shows it | evidently intended | confidence | as-written member | corrected member |
|---|---|---|---|---|---|---|
| cache.py:78-82 | `Alloc` asserts `not self.freelist`, then pops the free list. No code in cache.py calls it: its `accessL1` only requests `msq_arb`, so the defect is reached only by a caller outside that file | a fresh MSQ with `num_units = 4`: the assert fails on `[0, 1, 2, 3]`; with an empty free list the `pop()` raises | assert the free list is non-empty, then pop and return its last unit (as loadstore.py:57-62 does) | high; not executed | `Cache.MSQ.Alloc` | `LoadStore.MSQ.Alloc` |
| cache.py:84-88 | `Release` asserts `not self.busylist`, then pops the busy list. No code in cache.py calls it, so the defect is reached only by a caller outside that file | an MSQ with one busy unit: the assert fails; with no busy unit the `pop()` raises | assert the busy list is non-empty, then move its last unit back to the free list (as loadstore.py:64-68 does) | high; not executed | `Cache.MSQ.Release` | `LoadStore.MSQ.Release` |

## Left out

- The event loop, processes, `yield`/`timeout` and `Resource` come from the `simpy` library, which is not part of this model. The MSQ arbiter is kept only as its capacity, in `MissPath`.
- `MissPath` allows any waiting transaction to be granted, so its results hold for FIFO grants too. The FIFO order itself is not modelled.
- Random number generation, including `random.uniform(0, 1) < p`, is not modelled. Each draw is a parameter or a nondeterministic choice within its range.
- Trace strings, `print` output, and the ids drawn from the `Pool` only to label trace lines (in `load`, `accessL1` and cache.py's `MSQ.Access`) are not modelled. They are diagnostics.
- `LoadStore.load` is not modelled separately. It only draws a trace id, waits for `accessL1` and prints.
- The top-level wiring of both scripts (loadstore.py:144-157, cache.py:176-186) is not modelled.
- `MyEnv` (cache.py:44-54) is not modelled. Its `process` uses a field that does not exist.
- The broken wiring of cache.py is not modelled: `MSQ` is given an environment with no `draw`, `msq_arb` is requested and never released, and `LoadStore.run` loops forever.
- `rand` in memory.py (lines 14-16) raises because `random` is not imported there. `Memory.Memory.Rand` models the cache.py copy instead.
- The `Memory` and `Pool` classes repeated in loadstore.py and cache.py are identical to the ones modelled, and are modelled once.
- `Memory` data is a sequence of integers. The Python list could hold any value.
- `Dep`'s parent and children are modelled by their text, as strings. Other values, and what `"%s" %` does with them, are not modelled. That includes a tuple value, which `%` takes as its argument list: `(1, 2)` raises `TypeError` and `(5,)` renders as `5`.
- MSQ capacities are natural numbers, so a negative capacity is not modelled. A capacity of 0 is modelled as an empty MSQ whose arbiter never grants; the arbiter's refusal of capacity 0 is not modelled.
- `LoadStore.AccessL1`: its latency counts only the timeouts the transaction awaits, not the time it queues at the arbiter, which depends on the library's scheduling.
- `Cache.AccessL1`: its latency likewise leaves out the wait for `msq_arb`.
- `LoadStore.Setup`: returns issue times only. The loads it starts, and the scheduler that starts them, are not modelled.
