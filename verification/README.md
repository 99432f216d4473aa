# KV-Bench in Dafny

KV-Bench is a mock LLM server for benchmarking KV-cache storage. This project models six of its parts and proves what
they are relied on for. Dafny's verifier checks everything with `dafny verify dfyconfig.toml`.

- **Prefix caching** (`Chain`, `Tokens`, `TokenCollision`, `PrefixStack`, `PrefixSearch`, `Prefill`, `PrefillRuns`,
  `ServerSearch`, `Servers`): prompt bytes become simulated tokens, fixed-size chunks and prefix-chained chunk hashes;
  requests look up, fetch and store against a stack that caches chunk-aligned prefixes. Two searches for the longest
  cached prefix agree in every reachable state; token accounting balances in every interleaving.
- **Steady-state warmup** (`FifoStack`, `WarmupNonce`, `Warmup`, `WarmupRuns`, `WarmupVerdict`, `WarmupRestarts`,
  `WarmupControllers`): workers that check a shared progress counter before a store and add to it after. The overshoot
  bound, termination, the eviction verdict and the uniqueness of the generated sequences hold in every interleaving.
- **Cache keys** (`Text`, `CacheKeys`): making, parsing and sharding of keys.
- **Traces** (`SweepLine`, `TraceAnalyze`, `TraceRecorders`): the recorder's running counters against the offline
  analysis, and maximum concurrency by a sweep line.
- **Roofline timing** (`Latency`, `LatencyTimes`, `RooflineTiming`, `LatencyFields`): exact FLOP and byte counts and the
  laws of the latencies computed from them.
- **Disaggregated proxy** (`OpenAiCompat`, `Proxy`, `ProxyRuns`, `ProxyRequests`, `RoundRobin`, `ProxyServer`) and
  **mock GPU transfers** (`MockGpu`).

How the model is built:

- Objects whose methods update fields are classes here; every method is proved equal to a step function on the state,
  and the theorems are about those steps over whole runs. An `await` or `yield` splits a request or worker into steps,
  so a run is any interleaving of them, a superset of what the event loop can schedule.
- SHA-256 is an arbitrary function from bytes to 32-byte digests. Where collisions matter the theorems assume only that
  the finitely many preimages that occur do not collide.
- `Arith.Div`, `Arith.Mod` and `Arith.Offset(d, i)` are `//`, `%` and `i * d` on naturals, defined by repeated addition
  so that inductions follow them (`DivModAgree` and `OffsetAgrees` prove it). `Sums.Sum` adds a measure over a sequence.
- FLOPs and bytes are integers, times are reals; floating-point rounding is not modelled.

What the proofs show about the code and its documentation:

- Documentation promises that different text gives different tokens (src/kvbench/core/tokens.py:77). With the default
  of four bytes a piece no hash does that for all texts, and the same is true of every size from three on, and of no
  smaller one (`TokenCollision.CollisionUnavoidableIff`). Over the texts made of a given set of pieces it holds exactly
  when no two of these pieces share an id (`TokenCollision.ContentBasedIff`).
- The hashed bytes of a chunk decode uniquely because simulated tokens have a zero top byte. For arbitrary 32-bit tokens
  `Tokens.PreimageAmbiguousExactlyWhen` says exactly when those of a parentless chunk do not, and
  `Tokens.ChainedAmbiguousExactlyWhen` when those of a chained chunk do not.
- Racing requests can submit the same chunk twice (`PrefillRuns.RaceStoresTwice`); `PrefillRuns.StoreExactIff` says
  exactly when a store wastes nothing, `PrefillRuns.StoredOnceIff` exactly when a whole run does not.
- More cache hits can delay the first token: the decode step of a fully cached prompt reads more bytes than the last
  step of prefill when a token's cache entry is larger than its activations. `LatencyTimes.TtftMonotoneIff` is the exact
  condition, `LatencyTimes.FullCacheCanDelay` a model that misses it.
- `_max_concurrency` is documented for closed intervals (src/kvbench/trace/analyze.py:118); the code counts half-open
  ones, as its comment intends. `SweepLine.BackToBackNotConcurrent` is a list on which the two differ, and
  `SweepLine.SweepClosedIff` says for which lists they agree. Intervals that end before they start are counted
  negatively: `SweepLine.InvertedIntervalsMislead` is a list on which that hides an overlap, and
  `SweepLine.SweepExactIff` says on which lists it does not.
- A fill factor above 1 is documented to force eviction (src/kvbench/servers/warmup.py:39-40). The target is rounded
  down, and four sequences can fill the capacity to the byte (`WarmupVerdict.FillFactorCanMiss`). It is certain exactly
  when the factor exceeds 1 by a byte of capacity or the capacity is not a whole number of sequences
  (`WarmupVerdict.FillFactorEvictsIff`); `WarmupVerdict.EveryRunEvictsIff` decides it for any target.
- A failed warmup leaves its other workers running. A restarted one can then store more than its own workers account
  for (`WarmupRestarts.RestartCanExceed`), and only then (`WarmupRestarts.OvershootIff`).
- Parsing a cache key fails exactly when a text holds an '@' or a layer is negative. Two keys of one generator share a
  text only through an '@' in a hash or suffix (`CacheKeys.KeyCollidesIff`).
- A warmup with a positive target on a stack that reports 0 bytes a token never ends by itself; every other one does
  (`WarmupRuns.EndsIff`).
- The counter makes warmup sequences unique for the cache up to 256^min(chunk_size, 8) of them, and with chunks of at
  most 8 tokens no further (`WarmupNonce.DeduplicatesIff`).
- Closing a proxy stream between tokens leaves the decode endpoint's connection counted until the inner generator is
  finalised (`ProxyRuns.ClosedStreamLeaks`), and nothing else does (`ProxyRuns.LeaksIff`).

## Model

| member | source | states |
|---|---|---|
| Tokens.TokenProcessor.SimulateTokenize | src/kvbench/core/tokens.py:93-107 | one token for each granule of the text: the little-endian number in the first four bytes of the granule's digest, modulo 128256 |
| Tokens.GranuleIs | src/kvbench/core/tokens.py:96 | the granule is chars_per_token rounded to the nearest integer, ties to even, and at least 1 |
| Tokens.TokensInVocab | src/kvbench/core/tokens.py:104 | every simulated token is below 128256, so its top byte is zero |
| TokenCollision.DifferentTextSameTokens | src/kvbench/core/tokens.py:77 | with three or more bytes a piece the docstring's content promise fails for every hash: two different three-character ASCII texts have the same tokens |
| TokenCollision.CollisionUnavoidableIff | src/kvbench/core/tokens.py:77 | every hash gives some two texts the same tokens if and only if pieces have at least three bytes; the default is four |
| TokenCollision.ContentBasedIff | src/kvbench/core/tokens.py:77 | when it holds: over any set of pieces, different texts have different tokens if and only if no two of the pieces share an id |
| Chain.SharedPrefixSharesImages | src/kvbench/core/tokens.py:78-80 | texts that share their first bytes share every token whose piece lies inside the shared part |
| Tokens.TokenProcessor.ChunkTokens | src/kvbench/core/tokens.py:118-126 | chunks are the consecutive pieces of the tokens, all but the last of full size, and concatenate back to them |
| Tokens.TokenProcessor.ChunkTokensWithMetadata | src/kvbench/core/tokens.py:143-162 | chunk i carries its piece, index, start, fullness and the hash chained through all earlier chunks |
| Tokens.TokenProcessor.ChunkFields | src/kvbench/core/tokens.py:143-162 | field by field: the slice at i * chunk_size, its index, start and fullness, and the hash over it on top of the hash of the chunk before |
| Tokens.TokenProcessor.ComputeChunkHash | src/kvbench/core/tokens.py:180-186 | the hasher updates, one after another, hash exactly the parent's ASCII followed by the four little-endian bytes of each token |
| Tokens.HexInjective | src/kvbench/core/tokens.py:186 | different digests have different hex texts |
| Tokens.HexReadsBack | src/kvbench/core/tokens.py:186 | read as base 16 digits, high half first, the characters of a hash give the digest back |
| Tokens.TokenBytesRoundTrip | src/kvbench/core/tokens.py:184-185 | four little-endian bytes per token read back as the tokens |
| Tokens.PreimageIs | src/kvbench/core/tokens.py:181-185 | byte by byte: the parent's character codes first, then four bytes for each token, the lowest first |
| Tokens.PreimageRoundTrip | src/kvbench/core/tokens.py:181-185 | with zero top bytes the hashed bytes decode to the very parent and tokens they came from |
| Tokens.PreimageInjective | src/kvbench/core/tokens.py:181-185 | hence two different (parent, chunk) pairs never feed the hasher the same bytes |
| Tokens.PreimageAmbiguousExactlyWhen | src/kvbench/core/tokens.py:181-185 | for arbitrary 32-bit tokens a parentless chunk is ambiguous exactly when its first 64 bytes spell lower-case hex |
| Tokens.ChainedAmbiguousExactlyWhen | src/kvbench/core/tokens.py:181-185 | for arbitrary tokens and chunks of at most chunk_size of them, a chained chunk shares its preimage with a parentless one if and only if it has at most chunk_size - 16 tokens |
| Tokens.SameKindInjective | src/kvbench/core/tokens.py:181-185 | two chained chunks, or two parentless ones, never share a preimage, whatever their tokens |
| Tokens.HasherInjective | src/kvbench/core/tokens.py:164-186 | absent digest collisions among the preimages that occur, chunk hashes are injective on the links that occur |
| Tokens.ChunkHashIdentifiesPrefix | src/kvbench/core/tokens.py:131-135 | equal chained hashes at chunk i of A and chunk j of B mean i = j and A and B agree up to the end of that chunk |
| Tokens.TokenProcessor.FindPrefixMatch | src/kvbench/core/tokens.py:203-218 | the upward scan returns the hashes of the longest run of leading chunks that are cached, and their token count |
| PrefixStack.FakeKVStack.HitLengthOf | tests/fakes.py:32-37 | the downward scan returns the hit length of the specification |
| PrefixStack.HitLengthIsHit | tests/fakes.py:32-37 | the hit length is the longest chunk-aligned cached prefix |
| PrefixStack.HitUnique | tests/fakes.py:32-37 | there is only one such length |
| PrefixStack.FakeKVStack.Lookup | tests/fakes.py:42-47 | a lookup returns the hit length and counts it; the prefixes stay |
| PrefixStack.FakeKVStack.Store | tests/fakes.py:49-53 | the store loop adds every chunk-aligned prefix, and counts the tokens submitted |
| PrefixStack.FakeKVStack.Retrieve | tests/fakes.py:72-76 | a retrieve returns the hit length and counts it |
| PrefixStack.CountPrefixesAbove | tests/fakes.py:50-51 | a sequence has one prefix for each whole chunk beyond a multiple of the chunk size |
| PrefixStack.StoreKeepsClosed | tests/fakes.py:49-51 | every store keeps the cached prefixes closed under chunk-aligned truncation |
| PrefixStack.TruncationCached | tests/fakes.py:49-51 | so every shorter aligned prefix of a cached prefix is cached |
| PrefixSearch.HashInStored | src/kvbench/core/tokens.py:206-218 | a chunk's chained hash is among a stored sequence's full-chunk hashes exactly when the prefix it ends is cached |
| PrefixSearch.MatchIsHit | src/kvbench/core/tokens.py:206-218 | any upward match is the downward hit, because nothing aligned is cached beyond the first miss |
| PrefixSearch.SearchesAgree | src/kvbench/core/tokens.py:188-218 | after every history of stores the upward scan over chained hashes returns exactly the downward scan's length |
| ServerSearch.CachedByStores | src/kvbench/servers/combined.py:192-228 | in every state a server reaches, the cached prefixes are those of the stores made on the way, in order |
| ServerSearch.ServerSearchesAgree | src/kvbench/core/tokens.py:188-218 | so the two searches agree in every reachable state, over any interleaving of requests |
| Prefill.StepKeeps | src/kvbench/servers/combined.py:198-228 | every step of every request keeps truncation closure, request consistency and the balance of all ten counters |
| Prefill.RunKeeps | src/kvbench/servers/combined.py:192-228 | so does every run, and no cached prefix is ever lost |
| Prefill.SubmittedTokens | src/kvbench/servers/combined.py:221-223 | a store submits exactly chunk_size tokens for each prefix longer than the hit |
| PrefillRuns.TokenConservation | src/kvbench/servers/combined.py:201-228 | in every interleaving: hit + stored + trailing tokens = looked-up tokens, retrieved = hit, cache hits + misses = all chunks, and chunk_size * cache hits = hit tokens |
| PrefillRuns.OperationsConserved | src/kvbench/servers/combined.py:201-223 | each completed request was one lookup, a retrieve exactly if it hit, and a store exactly if it missed a full chunk |
| PrefillRuns.StoredCoversPrefixes | src/kvbench/servers/combined.py:201-223 | in every interleaving stored_tokens is at least chunk_size times the cached prefixes |
| PrefillRuns.StoreExactIff | src/kvbench/servers/combined.py:221-223 | one store submits at least what it adds, and exactly that if and only if its lookup is still the current hit |
| PrefillRuns.StoredOnceIff | src/kvbench/servers/combined.py:201-223 | in any interleaving stored_tokens is chunk_size times the cached prefixes if and only if every store of the run relies on a lookup that is still the hit |
| PrefillRuns.SequentialStoresOnce | src/kvbench/servers/combined.py:201-223 | served one after another, no chunk is stored twice: stored_tokens is chunk_size times the cached prefixes |
| PrefillRuns.ServeAllIsARun | src/kvbench/servers/prefill.py:161-182 | sequential service is one of the interleaved runs |
| PrefillRuns.RaceStoresTwice | src/kvbench/servers/combined.py:201-223 | two racing requests do submit one chunk twice |
| PrefillRuns.SharedTokensHit | src/kvbench/servers/combined.py:198-223 | once stored, the shared leading tokens are hit by every later lookup |
| PrefillRuns.SharedBytesHit | src/kvbench/servers/combined.py:198-223 | prompts sharing L bytes: the later one hits at least chunk_size * ((L / 4) / chunk_size) tokens |
| PrefillRuns.ResendHitsEverything | src/kvbench/servers/combined.py:216-223 | re-sending a prompt hits every full chunk and issues no store |
| Servers.ServeIs | src/kvbench/servers/combined.py:192-228 | an undisturbed request, step by step, is one look-up, fetch and store on the stack it found |
| Servers.CombinedServer.ProcessPrefill | src/kvbench/servers/combined.py:192-228 | the handler's stack and chunk counts are those of the protocol |
| Servers.CombinedServer.ChatCompletions | src/kvbench/servers/combined.py:301-342 | a whole request is one sequential service of the protocol; completion tokens grow by max_tokens, by 100 when that is missing or 0, and not at all when it is negative |
| FifoStack.FifoKVStack.Store | tests/unit/servers/test_warmup.py:42-47 | the cache stays the longest suffix of the store history whose bytes fit the capacity |
| FifoStack.FifoKVStack.EvictFront | tests/unit/servers/test_warmup.py:45-47 | the eviction loop drops exactly the elements before the longest fitting suffix |
| FifoStack.FifoKVStack.Lookup | tests/unit/servers/test_warmup.py:36-40 | a lookup is an exact match against the cached sequences |
| FifoStack.StoreThenEvict | tests/unit/servers/test_warmup.py:42-47 | evicting from what was left after earlier evictions keeps the longest fitting suffix of the whole history |
| FifoStack.RetainedIff | tests/unit/servers/test_warmup.py:42-47 | a stored sequence is still cached exactly when all stored since, itself included, fits |
| WarmupNonce.Stamp | src/kvbench/servers/warmup.py:181-182 | the first eight tokens become the base 256 digits of the counter modulo 2^64, lowest first, and the other tokens stay |
| WarmupNonce.SameBytesIff | src/kvbench/servers/warmup.py:181-182 | two counters agree on k bytes exactly when they are congruent modulo 256^k |
| WarmupNonce.FirstChunks | src/kvbench/servers/warmup.py:174-176 | equal first chunks mean counters congruent modulo 256^min(chunk_size, 8), and conversely for chunks of at most 8 tokens |
| WarmupNonce.NeverDeduplicates | src/kvbench/servers/warmup.py:174-176 | up to 256^min(chunk_size, 8) generated sequences the stored prefixes are as many as the chunks generated |
| WarmupNonce.AllNewIff | src/kvbench/servers/warmup.py:174-176 | for any stored sequences of at least one chunk the prefixes are at most as many as the chunks, and as many if and only if no two share their first chunk |
| WarmupNonce.DeduplicatesIff | src/kvbench/servers/warmup.py:174-176 | with chunks of at most 8 tokens none of the generated sequences deduplicates if and only if there are at most 256^chunk_size of them |
| WarmupNonce.WrapRepeatsChunk | src/kvbench/servers/warmup.py:174-176 | one wrap of the counter later a short first chunk does repeat |
| Warmup.SeqTokensFit | src/kvbench/servers/warmup.py:115 | the sequence length is a whole number of chunks and has room for the counter |
| Warmup.SeqTokensIs | src/kvbench/servers/warmup.py:115 | that length is the requested one rounded down to whole chunks, or one chunk |
| Warmup.TargetBytesIs | src/kvbench/servers/warmup.py:117-127 | a gigabyte of target is 1024^3 bytes, rounded down; without a target it is the capacity times the fill factor, rounded down; without both the start fails |
| Warmup.StepKeeps | src/kvbench/servers/warmup.py:185-229 | each start, loop turn, acknowledged or failing store, eviction check and cancel keeps the progress invariant |
| WarmupRuns.Overshoot | src/kvbench/servers/warmup.py:221-229 | stored_bytes = sequences * seq_bytes always, below target + concurrency * seq_bytes, and at least the target once all workers have finished |
| WarmupRuns.StepProgress | src/kvbench/servers/warmup.py:221-229 | every step of a started run decreases the termination measure if sequences have bytes or the target is 0 |
| WarmupRuns.StartedRunEnds | src/kvbench/servers/warmup.py:185-219 | if tokens have bytes or the target is 0, a started run is over within 3 * (target + concurrency * seq_bytes) + concurrency + 5 steps, however it interleaves |
| WarmupRuns.Progress | src/kvbench/servers/warmup.py:185-229 | until it is over, some step other than a failure or cancel is possible |
| WarmupRuns.EndsIff | src/kvbench/servers/warmup.py:185-229 | the runs a start can lead to are bounded in length if and only if bytes_per_token is positive or the target rounds to 0 |
| WarmupRuns.WeightlessNeverFinishes | src/kvbench/servers/warmup.py:223 | with 0 bytes a token and a positive target, no worker ever leaves its loop |
| WarmupRuns.FailsIff | src/kvbench/servers/warmup.py:203-210 | a run fails exactly when a store raises |
| WarmupRuns.EndsStay | src/kvbench/servers/warmup.py:151-219 | a failed run stays failed, and a cancelled one cancelled, until the next start |
| WarmupRuns.VerdictIsExact | src/kvbench/servers/warmup.py:231-246 | a finished run reports evicting exactly when sequences * seq_bytes exceeds the capacity, whatever earlier runs left |
| WarmupRuns.TargetAboveCapacityEvicts | src/kvbench/servers/warmup.py:231-246 | a target above the capacity always ends in eviction |
| WarmupVerdict.EveryRunEvictsIff | src/kvbench/servers/warmup.py:117-127 | told from the parameters: every finished run evicts, in any interleaving and after any earlier runs, if and only if the fewest whole sequences that reach the target overflow the capacity (or outrun the counter) |
| WarmupVerdict.FrugalRun | src/kvbench/servers/warmup.py:185-229 | a run whose stores do not overlap exists and stores exactly ceil(target / seq_bytes) sequences |
| WarmupVerdict.FittingRunKeeps | src/kvbench/servers/warmup.py:231-246 | a finished run whose stores fit the capacity never reports evicting |
| WarmupVerdict.FillFactorEvictsIff | src/kvbench/servers/warmup.py:39-40 | a fill factor of at least 1 makes every run evict if and only if it exceeds 1 by a byte of capacity, or the capacity is not a whole number of sequences (or the counter runs out) |
| WarmupVerdict.FillFactorCanMiss | src/kvbench/servers/warmup.py:39-40 | a finished run that does not evict with a fill factor above 1: 1 GiB, four sequences of 256 MiB, factor 1 + 1e-10 |
| WarmupVerdict.GibibytesStored | src/kvbench/servers/warmup.py:117-127 | a finished run with a target of k GB has stored at least k * 2^30 bytes |
| WarmupVerdict.GibibytesExactly | src/kvbench/servers/warmup.py:117-127 | with sequences of 2^20 bytes and stores that do not overlap it stores exactly that |
| WarmupRuns.EachStoreIsNew | src/kvbench/servers/warmup.py:171-183 | over all runs of one controller, up to 256^min(chunk_size, 8) sequences, each store adds exactly seq_tokens / chunk_size prefixes to a prefix stack |
| WarmupRuns.StoreIsNewExactly | src/kvbench/servers/warmup.py:171-183 | with chunks of at most 8 tokens a store in a reachable state does so if and only if it is one of the first 256^chunk_size |
| WarmupRestarts.Simulates | src/kvbench/servers/warmup.py:185-229 | the machine of leftover workers takes the same step wherever the warmup machine steps |
| WarmupRestarts.RestartOvershoot | src/kvbench/servers/warmup.py:203-229 | restarted at any time, a run stores less than its target, one sequence per worker of its own, and one per worker left over from a failed run |
| WarmupRestarts.OvershootIff | src/kvbench/servers/warmup.py:203-229 | it is sure to stay below target + concurrency * seq_bytes if and only if no worker that stores bytes is left over |
| WarmupRestarts.RestartCanExceed | src/kvbench/servers/warmup.py:203-229 | one failed store of two leaves such a worker, and then any restarted run can reach target + concurrency * seq_bytes |
| WarmupRestarts.LeftoversStandApart | src/kvbench/servers/warmup.py:203-219 | a store raising in a leftover worker fails no run, and a cancellation stops no leftover worker |
| WarmupRestarts.DoneIff | src/kvbench/servers/warmup.py:203-219 | a running warmup finishes exactly when each worker of its own run has left its loop, whatever leftover workers do |
| WarmupRestarts.LeftoversAre | src/kvbench/servers/warmup.py:185-219 | the workers left over by a start are exactly those still at work, in order |
| WarmupControllers.WarmupController.Start | src/kvbench/servers/warmup.py:102-149 | refuses while running or without a target, and otherwise resets the status: sequence length, rounded target, concurrency and zero progress |
| WarmupControllers.WarmupController.NextSequence | src/kvbench/servers/warmup.py:171-183 | counts up and stamps the token list in place |
| WarmupControllers.WarmupController.WorkerBegin | src/kvbench/servers/warmup.py:223-227 | from the loop guard to the store call is one step of the machine |
| WarmupControllers.WarmupController.WorkerReturn | src/kvbench/servers/warmup.py:228-229 | from the acknowledged store to the guard is one step of the machine |
| WarmupControllers.WarmupController.CheckEviction | src/kvbench/servers/warmup.py:238-246 | the retry loop ends done with the verdict the cache contents give: evicting after one lookup that misses, and otherwise not evicting after five |
| WarmupControllers.WarmupController.Cancel | src/kvbench/servers/warmup.py:151-163 | cancels a running warmup, leaves no worker alive and keeps the progress |
| WarmupControllers.WarmupController.RunAlone | src/kvbench/servers/warmup.py:185-210 | with stores that do not suspend, the run stores exactly ceil(target / seq_bytes) sequences, and is evicting exactly when they exceed the capacity |
| Text.JoinSplitsBack | src/kvbench/core/tokens.py:312 | splitting undoes joining exactly when no part holds the separator |
| Text.NatTextIs | src/kvbench/core/tokens.py:306-308 | str(n) is the decimal digits of n without a leading zero |
| Text.ParseIntIff | src/kvbench/core/tokens.py:396-399 | int(s) succeeds exactly for an optional sign and digits with single underscores between them, white space around them ignored, and gives the number they stand for |
| Text.ParseIntOfSpace | src/kvbench/core/tokens.py:396-399 | nothing but white space is no number |
| Text.IntRoundTrip | src/kvbench/core/tokens.py:396-399 | int(str(n)) is n |
| CacheKeys.KeyRoundTrip | src/kvbench/core/tokens.py:300-402 | parsing a key's text succeeds exactly for keys without '@' in their texts and without negative layers, and returns every field |
| CacheKeys.MakeKeyIs | src/kvbench/core/tokens.py:300-312 | the text of a key, part by part |
| CacheKeys.ParseKeyFails | src/kvbench/core/tokens.py:382-402 | which error parse_key raises, by the number of '@', of '-' in the layer range, and the four integers |
| CacheKeys.MakeKeyRoundTrip | src/kvbench/core/tokens.py:278-312 | the same for the arguments of make_key, a missing end layer meaning the start layer |
| CacheKeys.KeyTextInjective | src/kvbench/core/tokens.py:303-312 | a readable key shares its text with no other key, readable or not |
| CacheKeys.AtSignCollides | src/kvbench/core/tokens.py:312 | for every key with an '@' in its hash or suffix the same generator has other arguments with the same text |
| CacheKeys.KeyCollidesIff | src/kvbench/core/tokens.py:278-312 | a generator gives some other arguments the same text if and only if an '@' is in the hash or the suffix; the model name and negative layers do not matter |
| CacheKeys.RangeTextInjective | src/kvbench/core/tokens.py:308 | a layer range's text determines both layers, negative ones too |
| CacheKeys.WorkerKeysDistinct | src/kvbench/core/tokens.py:335-338 | one key for each worker 0 to world_size - 1, in order, pairwise distinct whatever the hash and suffix contain |
| CacheKeys.MakeKeysForLayers | src/kvbench/core/tokens.py:363-368 | the loop lists the keys of range(0, num_layers, layers_per_shard), key i for the layers from i * layers_per_shard on, and a zero step is an error |
| CacheKeys.ShardsTile | src/kvbench/core/tokens.py:364-365 | with a positive layers_per_shard each layer lies in exactly one shard, number layer / layers_per_shard |
| CacheKeys.TiledIff | src/kvbench/core/tokens.py:364-365 | for all integers: each layer lies in exactly one shard if and only if layers_per_shard is positive or there are no layers |
| CacheKeys.ShardsAdjoin | src/kvbench/core/tokens.py:364-365 | the shards run from layer 0 to the last layer without gap or overlap, ceil(num_layers / layers_per_shard) of them, none for num_layers <= 0 |
| CacheKeys.LayerKeysDistinct | src/kvbench/core/tokens.py:363-368 | no two shards share a key, for any integers but a zero step |
| SweepLine.Sort | src/kvbench/trace/analyze.py:127 | the points in order, ends before starts at the same instant, none lost |
| SweepLine.PeakIsMaximum | src/kvbench/trace/analyze.py:125-133 | the peak depth of the sorted points is the maximum net overlap over all instants |
| SweepLine.MaxConcurrency | src/kvbench/trace/analyze.py:117-133 | for any intervals the sweep returns the maximum over all t of intervals open at t less inverted ones around t |
| SweepLine.SweepIsExact | src/kvbench/trace/analyze.py:117-133 | with start <= end that is the true maximum of start <= t < end, ties and empty intervals included |
| SweepLine.SweepExactIff | src/kvbench/trace/analyze.py:117-133 | for any intervals the sweep finds the maximum of start <= t < end if and only if at some instant of maximum overlap no inverted interval has end <= t < start |
| SweepLine.MaximumExists | src/kvbench/trace/analyze.py:117-133 | there always is such a maximum |
| SweepLine.SweepClosedIff | src/kvbench/trace/analyze.py:118 | for any intervals it finds the docstring's maximum of start <= t <= end if and only if at some instant of maximum closed overlap no interval ends and no inverted one lies around it |
| SweepLine.BackToBackNotConcurrent | src/kvbench/trace/analyze.py:118 | [(0, 1), (1, 2)] misses it: two closed intervals overlap at 1 and the sweep reports one |
| SweepLine.InvertedIntervalsMislead | src/kvbench/trace/analyze.py:117-133 | [(4, 1), (2, 3)] misses the first: one interval is open at 2 and the sweep reports none |
| TraceAnalyze.Collect | src/kvbench/trace/analyze.py:136-163 | count, bytes, size histogram, durations and threads of the matching events; last_mono is their greatest instant, first_mono the least instant less duration, and max_concurrency the most events under way at once |
| TraceAnalyze.MatchingSplits | src/kvbench/trace/analyze.py:136-143 | which events match, in which order |
| TraceAnalyze.DurationsSplit | src/kvbench/trace/analyze.py:147-150 | the durations are those of the events that have one, in order |
| TraceAnalyze.SizesConserveBytes | src/kvbench/trace/analyze.py:143-146 | sizes times their counts add up to total_bytes |
| TraceRecorders.TraceRecorder.Record | src/kvbench/trace/recorder.py:84-123 | one record call appends its line and counts it for its key, and flushes exactly when 256 lines wait or a second has passed since the last timed flush |
| TraceRecorders.TraceRecorder.Flush | src/kvbench/trace/recorder.py:125-128 | one flush call is one step of the log, leaving both flush triggers as they are |
| TraceRecorders.TraceRecorder.Close | src/kvbench/trace/recorder.py:130-136 | one close call is one step of the log |
| TraceRecorders.LogKeepsRecords | src/kvbench/trace/recorder.py:84-136 | the log holds exactly the events recorded before the first close, in order |
| TraceRecorders.CountersMatchAnalysis | src/kvbench/trace/recorder.py:112-114 | after any interleaving of calls, counters[(event, op, backend)] is the count and total_bytes _collect computes from the log |
| TraceRecorders.FewUnflushed | src/kvbench/trace/recorder.py:115-123 | at most 255 lines are ever unflushed |
| TraceRecorders.UnflushedAreRecent | src/kvbench/trace/recorder.py:116-123 | while the clock does not run back, unflushed lines were written within the second after the last timed flush |
| TraceRecorders.CloseIsFinal | src/kvbench/trace/recorder.py:130-136 | closing flushes every line and no later call changes anything |
| Latency.PairsIsSum | src/kvbench/core/latency.py:133-135 | the closed form halves an even number and equals the sum of p + 1 over the range |
| Latency.FlopsLinear | src/kvbench/core/latency.py:137-142 | prefill FLOPs are a constant times the query-key pairs plus a constant times the tokens; decode the same with one query |
| Latency.BytesLinear | src/kvbench/core/latency.py:268-312 | prefill and decode bytes are the weights plus cache and activation bytes per token |
| LatencyFields.FlopsInFields | src/kvbench/core/latency.py:104-240 | prefill and decode FLOPs of every valid model in its own fields: layers, hidden and intermediate size, heads, KV heads, head dimension |
| LatencyFields.FlopsOfPlainModel | src/kvbench/core/latency.py:104-240 | the same where heads * head_dim is the hidden size |
| LatencyFields.OneMoreKvHead | src/kvbench/core/latency.py:129-240 | KV heads do not change attention FLOPs; each further one adds 4 * hidden * head_dim * layers * tokens * batch |
| LatencyFields.Llama8BFlops | src/kvbench/core/models.py:187-196 | llama-3.1-8b: 13959631872 FLOPs for one token, 131072 cache bytes a token |
| LatencyFields.BytesInFields | src/kvbench/core/latency.py:268-312 | cache, activation and weight bytes in the model's fields |
| LatencyFields.RooflineInFields | src/kvbench/core/latency.py:342-362 | compute and memory time at efficiency * tp_size of the peak rates; the longer one counts, and says what the pass is bound by |
| LatencyFields.PassesInFields | src/kvbench/core/latency.py:455-465 | TTFT is the prefill of the missing tokens on top of the hits, or one decode step when none is missing |
| LatencyFields.DecodeTotalSplits | src/kvbench/core/latency.py:494-501 | decode steps start with the second output token, and a longer output goes on where a shorter one stops |
| LatencyTimes.SplittingNeverSaves | src/kvbench/core/latency.py:334-353 | splitting a prefill conserves its FLOPs and never saves time |
| LatencyTimes.DecodeIsLastPrefill | src/kvbench/core/latency.py:377-386 | decode_latency(I) does the FLOPs of prefilling the last of I tokens; their bytes differ by cache less activations per token |
| LatencyTimes.HitsNeverDelay | src/kvbench/core/latency.py:455-465 | within the condition more hits never delay the first token, hits beyond the input included |
| LatencyTimes.TtftMonotoneIff | src/kvbench/core/latency.py:434-465 | estimate_ttft is non-increasing in the hits if and only if cache bytes per token <= 2 * hidden * layers, or the decode step is compute bound, or nothing is computed |
| LatencyTimes.GenerationMonotoneIff | src/kvbench/core/latency.py:467-515 | the same condition decides it for the total generation time |
| LatencyTimes.EstimateGenerationTime | src/kvbench/core/latency.py:486-515 | prefill time is the TTFT, the loop adds the decode steps for tokens 2 to output, and the rate follows the total |
| LatencyTimes.FullCacheCanDelay | src/kvbench/core/latency.py:463-465 | for a model with as many KV heads as heads, caching the last prompt token delays the first output token |
| RooflineTiming.SplittingNeverSavesTime | src/kvbench/timing/roofline.py:223-254 | with AllReduce and pipeline transfers counted, splitting still never saves time |
| RooflineTiming.AllreduceAdds | src/kvbench/timing/roofline.py:127-164 | AllReduce overhead is additive in the tokens |
| LatencyFields.AllreduceInFields | src/kvbench/timing/roofline.py:127-164 | two AllReduces a layer, each moving 2 * (tp - 1) / tp of the hidden states at the interconnect's GB/s |
| RooflineTiming.RingGpuMs | src/kvbench/timing/communication.py:84-93 | tp GPUs together spend the time of 2 * (tp - 1) messages |
| RooflineTiming.PipelineAdds | src/kvbench/timing/roofline.py:166-196 | pipeline overhead is additive in the tokens, but for the fixed latency of each stage boundary, which two passes pay twice |
| LatencyFields.PipelineInFields | src/kvbench/timing/roofline.py:166-196 | at each of pp_size - 1 boundaries 5 microseconds and the activations at the interconnect's GB/s |
| LatencyFields.TimingsInFields | src/kvbench/timing/roofline.py:198-283 | a pass takes its roofline and its overheads, and reports an overhead of zero as none |
| RooflineTiming.RooflineScales | src/kvbench/core/latency.py:94-102 | the roofline alone scales perfectly with the group size |
| RooflineTiming.NoSuperlinearSpeedup | src/kvbench/timing/roofline.py:223-283 | more GPUs never lower the GPU-time of a prefill or a decode step |
| RoundRobin.SelectionFails | src/kvbench/servers/proxy.py:161-168 | selection returns none exactly when every server is down, and a healthy server otherwise |
| RoundRobin.HealthyOrdered | src/kvbench/servers/proxy.py:161-165 | the healthy servers are listed in the order of the servers |
| ProxyRuns.StepKeeps | src/kvbench/servers/proxy.py:205-469 | each arrival, resumption, cancellation, finalisation and health change keeps all per-endpoint and proxy counters balanced |
| ProxyRuns.EndpointsConserved | src/kvbench/servers/proxy.py:222-238 | in every reachable state active_connections are non-negative and are the phases in flight, and per-endpoint totals add up to the proxy's |
| ProxyRuns.RequestsConserved | src/kvbench/servers/proxy.py:406-469 | in every reachable state success <= decode <= prefill <= total, and total is successes, failures, in flight and cancelled together |
| ProxyRuns.TokensComplete | src/kvbench/servers/proxy.py:258-274 | in every reachable state each request counted as decoded has generated exactly max_tokens tokens, or 100, and none more |
| ProxyRequests.RequestsAreArrivals | src/kvbench/servers/proxy.py:258-303 | request i of any run is the i-th arrival, with max_tokens as its limit, 100 when that is missing or 0, and none when it is negative |
| ProxyRequests.GeneratesWhatWasAsked | src/kvbench/servers/proxy.py:258-303 | in every run a request that finished its decode phase generated exactly that many tokens |
| ProxyRequests.PlainTakes | src/kvbench/servers/proxy.py:313-404 | an undisturbed plain request is answered after the sleeps of its prefill and of each token, not before |
| ProxyRequests.StreamTakes | src/kvbench/servers/proxy.py:313-404 | an undisturbed stream ends after its prefill, its start chunk, two suspensions a token and two closing chunks, not before |
| ProxyRequests.RefusedWithoutPrefill | src/kvbench/servers/proxy.py:420-469 | with every prefill server down a plain request fails at once, a stream when its error chunk is taken |
| ProxyRequests.RefusedWithoutDecode | src/kvbench/servers/proxy.py:313-404 | the same after the prefill phase with every decode server down |
| ProxyRuns.NothingLeaks | src/kvbench/servers/proxy.py:295-311 | when all requests have ended every prefill endpoint is free, and every decode endpoint is if and only if no abandoned stream awaits finalisation |
| ProxyRuns.LeaksIff | src/kvbench/servers/proxy.py:295-311 | the same for the connections of all endpoints together |
| ProxyRuns.ClosedStreamLeaks | src/kvbench/servers/proxy.py:295-311 | a stream closed at a token does hold its decode connection, until its inner generator is finalised |
| RoundRobin.TimesInWindow | src/kvbench/servers/proxy.py:166-167 | how often a window of selections picks a server, from the counter alone |
| RoundRobin.WindowFair | src/kvbench/servers/proxy.py:166-167 | whole rounds pick every healthy server equally often, other windows within one |
| RoundRobin.PrefillSelectionFair | src/kvbench/servers/proxy.py:155-178 | as long as the healthy set stays the same, whatever health events set it to what it is, every stretch of prefill selections in every run is fair |
| RoundRobin.DecodeSelectionFair | src/kvbench/servers/proxy.py:180-203 | the same for decode selections |
| RoundRobin.OnlyHealthEventsUnsettle | src/kvbench/servers/proxy.py:161-203 | without health events the healthy sets do stay the same |
| ProxyServer.Choose | src/kvbench/servers/proxy.py:161-168 | building the healthy list and indexing it is the round-robin choice |
| ProxyServer.DisaggregatedProxy.Arrive | src/kvbench/servers/proxy.py:420-436 | an arriving request is one step of the machine, on the endpoints in place |
| ProxyServer.DisaggregatedProxy.Resume | src/kvbench/servers/proxy.py:313-404 | running a request to its next suspension point is one step of the machine |
| ProxyServer.DisaggregatedProxy.Cancel | src/kvbench/servers/proxy.py:237-238 | cancellation at a suspension point is one step of the machine |
| ProxyServer.DisaggregatedProxy.Finalise | src/kvbench/servers/proxy.py:310-311 | finalising an abandoned stream's generator is one step of the machine |
| MockGpu.Fill | src/kvbench/kv/mock_gpu.py:83-93 | the fill loop terminates for any offsets and leaves the drawn slices one after another |
| MockGpu.SlicesContiguous | src/kvbench/kv/mock_gpu.py:85-93 | the slices follow each other from the drawn offsets, and each but the last reads on to the end of the pool |
| MockGpu.EveryByteOnce | src/kvbench/kv/mock_gpu.py:85-93 | every byte is written by exactly one slice |
| MockGpu.FilledBySlices | src/kvbench/kv/mock_gpu.py:91 | each slice of the tensor equals its contiguous slice of the pool |
| MockGpu.BoundsAre | src/kvbench/kv/mock_gpu.py:96-102 | slice bounds: from 0 to n as they are, negative ones from the end, others cut |
| MockGpu.ToGpu | src/kvbench/kv/mock_gpu.py:96-98 | writes the memory object, broadcast to the range, over tokens start to end, element by element, and nothing else |
| MockGpu.FromGpu | src/kvbench/kv/mock_gpu.py:100-102 | copies tokens start to end, broadcast in the same way, into the memory object, element by element |
| MockGpu.BatchedFromGpu | src/kvbench/kv/mock_gpu.py:104-106 | moves the common prefix of the three lists, a memory object listed twice ending with its last range, and reports whether the lengths agree |
| MockGpu.BatchedToGpu | src/kvbench/kv/mock_gpu.py:108-110 | each row ends as the pieces pasted over it in order |
| MockGpu.RoundTripIff | src/kvbench/kv/mock_gpu.py:104-110 | out and back reproduces the source exactly when the tokens no range covers already agree, overlapping ranges included |
| MockGpu.TilingRoundTrips | src/kvbench/kv/mock_gpu.py:104-110 | ranges that tile the tokens lose nothing, whatever the destination held |
| MockGpu.TransferRoundTrip | src/kvbench/kv/mock_gpu.py:104-110 | the same for the two batched transfers run on tensors in place |

## Left out

- The real LMCache engine, torch, the trace hooks and engine lifecycle: foreign code. The prefix-set stack of tests/fakes.py and the FIFO stack of the warmup tests stand for the KV stack.
- FastAPI app, OpenAI message types, SSE text, CLI, Prometheus, ids and logging: no state the properties depend on. Building a response is total, so the `except Exception` handlers of the proxy and servers are never entered.
- Exceptions from KV stack calls in the prefill and combined servers; an abandoned request simply takes no further step.
- Streaming in the combined server: its prefill is the same protocol; where it yields afterwards touches no cache state.
- Clocks, sleeps and latencies spent asleep: a clock reading is an input, and only the recorder's flush rule uses it.
- UTF-8 encoding, JSON writing and parsing, rounding of recorded durations: the model starts from bytes and from event records.
- Tokens outside 32 bits and parent hashes that are not ASCII, for which compute_chunk_hash raises.
- WarmupControllers.WarmupController.Start: does not model a start while workers of a failed run are still alive, and neither do the theorems of WarmupRuns and WarmupVerdict. WarmupRestarts models the progress counters of such runs, not the sequences they store or the eviction verdict.
- Lookups that raise during the eviction check (the code logs and finishes), and storage tiers that evict asynchronously: the FIFO stack evicts inside the store.
- Random token values of a warmup sequence beyond the eight counter bytes: any values.
- Text.ParseInt: models ASCII only; Python also accepts other Unicode digits and spaces, and refuses texts of more than 4300 digits.
- The weight bytes of a model (parameter estimate in floating point, then truncated) are a parameter, `weightBytes`.
- The choice of interconnect bandwidth (override, profile, or 900 GB/s): a parameter.
- kv_transfer_latency, the GPU and model profile tables, calibration and simple timing: formulas without laws that span functions.
- summarize, dominant_size, medians, fio job generation, loading of trace files: easy claims.
- RANDOM and LEAST_CONNECTIONS selection, the health-check loop (it changes nothing; health changes are events here), total_latency_ms.
- MockGpu.ToGpu: does not model the error for a memory object that cannot be broadcast to its range, tensors of other than four dimensions, element types, or a memory object that is the GPU tensor or a view of it.
- MockGpu.FromGpu: the same.
- MockGpu.BatchedFromGpu: the same, and memory objects that are overlapping views of one storage; the same object listed twice is modelled.
- MockGpu.BatchedToGpu: the same as ToGpu.
- The lock around the offset generator: draws are a sequence of positions in the pool.
