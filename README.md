# Token sampling and the RPC memory reply, modelled in Dafny

This project models three small pieces of a language-model runtime.

- **Sampler construction and token selection** (`sample/samplers.go`).
  `NewSampler` checks temperature, topK, topP and minP in that order. It
  collects the active stages into an ordered transform list and returns a
  greedy or a weighted sampler. Greedy sampling is an arg-max scan over the
  logits. Weighted sampling builds one `(id, logit, prob)` record per logit,
  folds the transforms over them in list order, and maps the drawn position
  back to a surviving id.
- **The RPC memory-info reply** (`rpc/rpc.go`). Int64 values are encoded as 8
  little-endian bytes. A connection is seen as the bytes the peer sends and
  the bytes the server writes back: command 10 gets a 24-byte reply (payload
  size, free memory, total memory), anything else gets nothing.
  `GetBackendMemory` reports a requested figure or 80% of the system figure.
- **RPC server flag resolution** (`cmd/rpc_server.go`). Host, port and backend
  memory start at defaults and are overwritten by flags that pass their
  checks. The memory flag is converted from MB to bytes. The non-localhost
  warning is decided, and the endpoint string is built.

Files: `wrappers.dfy` (Option, Result), `go_ints.dfy` (Go's fixed-width
conversions and truncating division), `samplers.dfy`, `rpc.dfy`,
`rpc_server.dfy`.

Floats are modelled by `Samplers.Float`: a real number or one of -Inf, +Inf,
NaN, with IEEE-754 comparisons. The samplers only compare these values.
Softmax, the four transforms and the weighted draw are not part of this model;
they enter as function-valued parameters (`softmax`, `apply`, `draw`). The
process memory figure `m.Sys` is the parameter `sys`. Flag lookups arrive as a
`Flags` value in which `None` stands for a lookup that returned an error.

Three behaviours of the code are easy to miss:

- With all four parameters 0, `NewSampler` returns the "at least one
  transform is required" error. Temperature 0 alone does not give a greedy
  sampler, because the empty-list check runs first.
- Greedy sampling never fails. Its running maximum starts at 0, so its
  negative-infinity check cannot fire (see Findings).
- Without a seed, the weighted sampler has no source of its own (`Unseeded`).

## Model

| member | source | states |
|---|---|---|
| `Samplers.NewSampler` | sample/samplers.go:111-155 | The first failing check decides the error: temperature outside [0,2], then negative topK, then topP outside [0,1), then minP outside [0,1). Valid parameters with no active stage give NoTransform. Otherwise temperature 0 gives Greedy, and any other temperature gives Weighted with exactly `Stages(...)`, seeded from `uint64(seed)` when `seed != 0` and unseeded when `seed == 0`. |
| `Samplers.ActiveOnlyAppend` | sample/samplers.go:117-139 | Appending a candidate stage only when its parameter is non-zero builds the filtered list one candidate at a time. |
| `Samplers.StagesAreTheActiveOnes` | sample/samplers.go:117-140 | Each stage is in the transform list if and only if its parameter is non-zero, and the list holds nothing else. |
| `Samplers.StagesInPipelineOrder` | sample/samplers.go:112-140 | The transform list is strictly ordered Temperature, TopK, TopP, MinP. |
| `Samplers.StagesEmptyIffAllZero` | sample/samplers.go:142-148 | The list is empty if and only if all four parameters are 0. That is the one case rejected with NoTransform, so temperature 0 on its own never yields Greedy. |
| `Samplers.SeededIffSeedNonZero` | sample/samplers.go:150-154 | For an int64 seed, the source is seeded exactly when the seed is non-zero. The seed's 64 bits are non-zero and read back as the seed. |
| `Samplers.GreedySample` | sample/samplers.go:88-108 | Always succeeds. The result is the first index holding the largest logit when some logit is above 0, and 0 otherwise (including empty input), converted with `int32`. The -Inf error is unreachable. |
| `Samplers.GreedyChoiceUnique` | sample/samplers.go:94-101 | The greedy choice is unique, so the scan's result is determined by the logits alone. |
| `Samplers.ScanStep` | sample/samplers.go:96-101 | One step of the scan keeps the running index equal to the first maximum above the starting value among the logits seen, and the running maximum equal to its logit. |
| `Samplers.GreedyMissesNegativeMaximum` | sample/samplers.go:94-101 | On logits [-1.0, -0.5], the greedy choice as written is 0, while the arg-max is 1. |
| `Samplers.GreedySampleIntended` | sample/samplers.go:88-108 | With the scan starting at -Inf: the result is the arg-max, and an error is returned exactly when no logit is above -Inf. |
| `Samplers.WeightedSample` | sample/samplers.go:40-78 | The result equals `WeightedOutcome`. The records start with `id = i`, the logit and the softmax probability. The transforms are folded in list order. No survivor gives NoValidLogits. Otherwise a successful draw at position k returns `int32` of survivor k's id, and a failed draw gives DrawFailed. |
| `Samplers.Sample` | sample/samplers.go:11-13 | The `Sampler` interface's `Sample`: a greedy sampler always succeeds with `int32` of the greedy choice on the raw logits, for any length, ignoring any transforms. A weighted sampler's result is `WeightedOutcome` over its own transform list. |
| `Samplers.ApplyAllSnoc` | sample/samplers.go:57-60 | Applying one more transform after a prefix equals folding over the longer list, so the loop applies the stages in list order. |
| `Samplers.ApplyAllOnlyShrinks` | sample/samplers.go:58-60 | If no stage introduces an id, neither does the whole pipeline. |
| `Samplers.WeightedPicksInputIndex` | sample/samplers.go:48-77 | If no stage introduces an id, a successful weighted sample is an index into the given logits, and empty logits always give NoValidLogits. |
| `Rpc.EncodeInt64` | rpc/rpc.go:157-160 | The buffer has length 8, and byte i is `(x >> 8i) mod 256` (two's-complement little-endian). The same loop appears at rpc/rpc.go:168-171 and rpc/rpc.go:179-182. |
| `Rpc.RoundTrip` | rpc/rpc.go:168-171 | Reading the 8 bytes back as little-endian gives the value modulo 2^64. |
| `Rpc.SignedRoundTrip` | rpc/rpc.go:179-182 | Reading the 8 bytes back as a two's-complement int64 gives back any int64 exactly. |
| `Rpc.ReplySizeBytes` | rpc/rpc.go:156-160 | The reply-size field is always the bytes [16,0,0,0,0,0,0,0]. |
| `Rpc.HandleConnection` | rpc/rpc.go:119-192 | With command 10 and at least one byte after it, the output is exactly `MemoryReply(sys)`. If the command read fails, the size read fails, or the command is anything else, nothing is written. |
| `Rpc.MemoryReplyLayout` | rpc/rpc.go:148-187 | The reply is 24 bytes: first 16, then free memory, then total memory. Free reads back as `(m.Sys*8 mod 2^64)/10`, computed in uint64, and total reads back as `m.Sys`. |
| `Rpc.GetBackendMemory` | rpc/rpc.go:52-70 | A positive request r gives (r, r). Otherwise total is `int64(m.Sys)`. When `8*m.Sys` fits int64, 0 ≤ free ≤ total and free is the floor of 80% of total. |
| `GoInts.Quot` | rpc/rpc.go:67 | Go's integer division truncates toward zero: the remainder has the sign of the dividend and is smaller than the divisor. |
| `RpcServer.ResolveConfig` | cmd/rpc_server.go:18-73 | An error occurs exactly when the mem flag was read, is non-empty and does not parse as a base-10 int64. The host defaults to 127.0.0.1 and is replaced only by a non-empty flag that was read without error. The port defaults to 50052 and is replaced only by a flag read without error with 0 < port < 65536, so the port always lies in that range. backendMem is 0 without a mem flag and `int64(MB*1024*1024)` with one, with no sign check. The warning is due if and only if the host is neither 127.0.0.1 nor localhost. The endpoint is host + ":" + decimal(port). |
| `GoInts.Int64Scale` | cmd/rpc_server.go:42 | Wrapping `memMB*1024` to int64 before the second `*1024` gives the same int64 as wrapping the full product once. |
| `RpcServer.DecimalDigits` | cmd/rpc_server.go:73 | The `%d` rendering of a non-negative number is a non-empty digit string that spells the number. |
| `RpcServer.ParseSigned` | cmd/rpc_server.go:38 | `strconv.ParseInt(s, 10, 64)` on an optional '+' or '-' followed by one or more digits (leading zeros allowed) returns the value the digits spell, negated after '-', exactly when it fits int64, and an error otherwise. |
| `RpcServer.ParseNegativeDecimal` | cmd/rpc_server.go:38 | '-' followed by the decimal rendering of n parses to -n for 0 < n ≤ 2^63, down to the least int64. |
| `RpcServer.ParseDecimal` | cmd/rpc_server.go:38 | `strconv.ParseInt(s, 10, 64)` on the decimal rendering of an int64 gives back the number. |
| `RpcServer.EndpointSplitsBack` | cmd/rpc_server.go:73 | The endpoint's last colon is right after the host, and the text after it parses back to the port. |
| `RpcServer.DefaultEndpoint` | cmd/rpc_server.go:20-21 | The default host and port render as "127.0.0.1:50052". |
| `RpcServer.MemFlagReachesBackend` | cmd/rpc_server.go:42-70 | For any MB value, the byte count is `int64(MB*1024*1024)` after the wrap. When that is positive it is reported as both free and total memory; when it is zero or negative, total falls back to the system figure. |
| `RpcServer.NegativeMemFlagWraps` | cmd/rpc_server.go:38-42 | The flag "-8796093022209" parses, and its byte count wraps to the positive 2^63 - 2^20, which is then reported as both free and total memory. |
| `RpcServer.ParseInt64` | cmd/rpc_server.go:38 | A result requires an optional leading sign followed by at least one ASCII digit and nothing else, within int64 range. A negative result has a leading '-', and the empty string is an error. |
| `RpcServer.Decimal` | cmd/rpc_server.go:73 | `%d` gives a non-empty digit string with no leading zero for a positive number, one digit long exactly below 10. |
| `GoInts.Int64` | rpc/rpc.go:66 | `int64(x)` lies in int64 range, differs from x by a multiple of 2^64, and leaves an int64 unchanged. |
| `GoInts.Int32` | sample/samplers.go:107 | `int32(x)` lies in int32 range, differs from x by a multiple of 2^32, and leaves an int32 unchanged. |
| `Rpc.ByteOf` | rpc/rpc.go:159 | `byte(x >> 8i)` keeps the low 8 bits of the arithmetic shift: it agrees with `x / 256^i` modulo 256. |

## Left out

- Softmax and the Temperature, TopK, TopP and MinP transforms are not part of this model. They are the parameters `softmax` and `apply`, and no tie-breaking, truncation or sorting rule is assumed for them. The `sorted` flag is carried but never read.
- `sampleuv.NewWeighted(...).Take()` and `rand.Source` are not part of this model. They are the `draw` oracle, which returns an in-range position or fails. The advance of the random source's state between calls is not modelled.
- The float32-to-float64 copy loops (sample/samplers.go:41-44 and 89-92) are the identity here, because the model has a single float type.
- Sampler parameters are `real`, so a NaN or infinite temperature, topP or minP is not modelled.
- The `Weighted`/`Greedy` constructor functions are the constructors of the `Sampler` datatype.
- Socket I/O in `rpc/rpc.go` is left out: listening, the accept loop, goroutines, read deadlines and logging. `StartRPCServer` is not modelled.
- HandleConnection: does not model failed writes. Each write is taken to succeed, whereas in the code a failed write stops the reply after the buffers already sent.
- HandleConnection: a read fails only when no byte is left. A deadline expiry, or a short read while more bytes are still in transit, is not modelled.
- `runtime.ReadMemStats` is replaced by the `sys` parameter. `CreateBackend`, `Free` and `runtime.GOOS` only detect the platform and log, so they are left out.
- In `cmd/rpc_server.go`, cobra flag access is replaced by the `Flags` value. `discover.GetGPUInfo`, `format.HumanBytes2`, the warning's text, printing, signal handling with `os.Exit` and the blocking call to `StartRPCServer` are left out.
- WeightedPicksInputIndex: assumes every stage only removes records, which is a property of the transforms outside this model.

## Findings

| source | as written | input that shows it | evidently intended | confidence | as-written member | corrected member |
|---|---|---|---|---|---|---|
| sample/samplers.go:94-107 | The running maximum starts at 0, so a logit is chosen only if it exceeds 0. When none does, index 0 is returned, and the `-Inf` error check can never fire. | logits [-1.0, -0.5]: id 0 is returned, although id 1 holds the maximum | Start the running maximum at -Inf. The arg-max (id 1) is then returned, and the error is reported only when no logit is above -Inf. | high; not executed | `Samplers.GreedyMissesNegativeMaximum` | `Samplers.GreedySampleIntended` |
