# Verified model of Project Aegis

Project Aegis stores files as content-addressed blocks. This project models the parts of it whose
correctness is not visible from one function body, and proves what they promise:

- **Chunking (Rust).** The byte-serial Gear scan, its AVX2 and NEON forms, the two-phase cut rule and the
  buffering stream driver (`Words`, `Gear`, `GearSimd`, `Chunking`, `FastCdc`, `FastCdcLaws`, `GearWindow`).
- **Namespace cache.** The generation-indexed cache with any number of readers, singleflight loads and
  writers that commit and then bump (`NamespaceCache`, `CacheLaws`).
- **Upload tokens.** The canonical message, the pre-signed URL, key rotation with an overlap window,
  freshness and single-use nonces (`Text`, `TokenCodec`, `Tokens`, `TokenLaws`, `TokenService`).
- **Block registry.** Commits, manifest removals, session cleanup and multi-step sweeps over reference-counted
  rows (`Registry`, `CommitLaws`, `RegistryProtocol`, `SweepLaws`, `Store`).
- **Smaller state machines.** Leader election, the two rate limiters, the circuit breaker and the Go chunker
  (`Election`, `ElectionLaws`, `SlidingWindow`, `TokenBucket`, `Breaker`, `GoReader`, `GoChunker`, `GoCutLaws`).

Code that changes state step by step is modelled by classes and loops, each method proved against a
function on values; the laws are then proved about those functions over every input or every run. The `...Laws`
modules say what each operation does without the functions that specify it. Protocols
are transition systems whose steps interleave freely; `Reachable` states are those some legal run leads to.
Check everything with `dafny verify dfyconfig.toml`.

## Where the code and its documentation differ

The model follows the code. In each case below a lemma exhibits the difference or gives the exact condition.

- `crates/fastcdc/src/lib.rs` describes the hard-ceiling phase as "more data pending"; a final chunk of exactly
  `max_chunk` bytes gets it too, with nothing pending (`FullFinalChunkIsHardMax`).
- `content_features` is documented as zero without feature computation (lib.rs:156-158); the phase bit is set
  all the same (`Describes`, `FeaturesReadBack`).
- The boundaries do not equal those of the carried-fingerprint oracle for every input; `StreamMatchesOracle` says
  exactly when they do, `OracleCanDiffer` gives an input where they do not.
- A token that is minted and accepted in the same second can be accepted once more, exactly `ttl + skew`
  later (`BoundaryReplay`); a token first accepted in any later second cannot (`SecondAcceptance`).
- A base URL with a path breaks the URL round trip, for every such path (`UrlRoundTrip`).
- With n concurrent sweepers the hourly limit can be exceeded by n - 1 rows, for every limit and every n
  (`SweepsRespectRate`, `SweepersExceed`), and rows whose deletion is executed but seen as an error are not counted.
  The limit holds from one reset of the counter to the next, not in every hour: over any stretch it is bounded by
  `HourlyBound`, and a single sweeper can remove twice the limit within a second (`TwiceTheLimit`).
  The counter lives in one collector process: the sweepers meant here are those of one process, and several
  processes have a limit each.
- Cleanup selects sessions by the database's clock (cmd/ingest/gc_adapter.go:23), commits are checked by the
  application's (internal/ingress/store.go:222). A session yields one version only if the former is not ahead of
  the latter (`OneVersionPerSession`, `SecondVersion`).
- Every statement of the collector's adapter passes the operation class "gc" (cmd/ingest/gc_adapter.go:19, 43, 49,
  76, 94), which internal/database/client.go:225-248 and 335-348 reject as unknown. As wired, no cleanup and no
  sweep statement reaches the database; the model is of what the statements do where they run.
- The safety window is checked when a sweep lists its blocks and not again. It protects every row that has been
  there since (`SafetyWindowHolds`); one that was removed and made again in between can be deleted however young
  (`YoungRowDeleted`).
- A lost bump leaves a stale entry under the live generation (`LostBumpLeavesStaleEntry`).
- Two electors can report leadership at once when a renewal is late, and also while a resignation's release has
  been executed but not answered, because `Resign` clears the flag only after the call
  (`LateRenewalOverlaps`, `ResignationOverlaps`). From every state with a leader, any idle elector can come to lead as
  well, as soon as the key is absent (`OverlapFollows`).
- The breaker's laws hold call by call. When single atomic operations interleave, an elected request can pass
  within the cooldown: before the opening time is stored, after a newer opening, or on a stamp stored late over a
  newer one. `SafeExactly` says exactly when a request that has loaded the opening time can, short of another opening,
  `LoadedThreadCanBeEarly` that another opening can catch every such request, and `StaleOpeningTime` and
  `LateStampOverwrites` give runs. Half-open can be left with no probe marked; `UnmarkedExactly` says exactly when,
  `ProbelessHalfOpen` gives a run.
- The Go chunker's minimum is not a lower bound on its chunks; `BelowMinimum` says exactly when a chunk is
  shorter. Its final flush branch (internal/fastcdc/fastcdc.go:231-246) is never reached.
- The Go chunker drops a reader's error when the failing read leaves bytes to cut
  (internal/fastcdc/fastcdc.go:153-156), so `ChunkAll` can succeed on a reader that failed. `FailureReported` says
  from the bytes before the failure exactly when it is reported; `FailureSwallowed` that it is not after any number
  of bytes that is no multiple of `MaxChunk`.
- After a lost bump, internal/database/client.go:539-542 promises staleness of at most the cache's time to live. The
  time to live runs from the SET, so the bound is that plus the time from the load to the SET (`StalenessBounded`),
  and it is attained (`StaleBeyondTtl`).

## Model

| member | source | states |
|---|---|---|
| `Gear.FindCutScalarFrom` | crates/fastcdc/src/scan.rs:21-35 | the loop returns the first cut of the seeded scan, or none |
| `Gear.FindCutScalar` | crates/fastcdc/src/scan.rs:14-16 | the same from a zero fingerprint |
| `Gear.FirstCutUnique` | crates/fastcdc/src/scan.rs:21-35 | a result is the earliest position whose masked fingerprint is zero (or none, when there is no such position) if and only if it is the one computed |
| `Words.AndBits` | crates/fastcdc/src/scan.rs:21-35 | the mask test's AND works digit by digit |
| `Gear.RollSplit` | crates/fastcdc/src/simd_x86.rs:70-140 | the starting fingerprint enters a group only as fp * 2^n mod 2^32 |
| `Gear.FirstCutSplit` | crates/fastcdc/src/scan.rs:21-35 | a scan can be cut in two anywhere if the fingerprint is carried over |
| `GearSimd.LowestLane` | crates/fastcdc/src/simd_x86.rs:70-140 | trailing zeros of the lane mask give the first lane that hits |
| `GearSimd.LaneIdentity` | crates/fastcdc/src/simd_x86.rs:70-140 | lane k of the multiply-add holds the fingerprint after k + 1 bytes of the group |
| `GearSimd.GroupVerdict` | crates/fastcdc/src/simd_x86.rs:70-140 | the lowest hit lane is the first cut of the group, and no hit lane means no cut in it |
| `GearSimd.FindCutAvx2` | crates/fastcdc/src/simd_x86.rs:70-140 | for every table, input and mask the 16-byte pair loop with its tail returns the scalar scan's first cut |
| `GearSimd.FindCutNeon` | crates/fastcdc/src/simd_arm.rs:20-65 | the same of the four-lane form |
| `GearSimd.FindCut` | crates/fastcdc/src/scan.rs:42-58 | whichever path is dispatched, the answer is the scalar one |
| `FastCdc.FastCdcStream.Refill` | crates/fastcdc/src/lib.rs:367-378 | the bytes still to be chunked do not change, also on a reader error; afterwards end of file is flagged exactly when fewer than max_chunk bytes remain |
| `FastCdc.FastCdcStream.CutPointOf` | crates/fastcdc/src/lib.rs:381-412 | the cut is the specified one of the buffered window, and the debug assertion holds |
| `FastCdc.FastCdcStream.NextChunk` | crates/fastcdc/src/lib.rs:312-341 | returns the next chunk of the pure definition with the hash of exactly its bytes; an error consumes no input |
| `FastCdc.FastCdcStream.NextBoundary` | crates/fastcdc/src/lib.rs:350-363 | returns the offset the stream stood at and the length it advanced by, those of the next chunk, and leaves the chunks after it |
| `FastCdc.ChunkAll` | crates/fastcdc/src/lib.rs:431-438 | for every way of splitting the input into reads: invalid configurations are refused, the call fails exactly when the reader does, otherwise the result describes exactly the chunks of the whole input |
| `FastCdc.CutsAll` | crates/fastcdc/src/lib.rs:456-463 | under the same error conditions, the offset and length of each of the very same chunks; the points start at 0, each where the last one ended, and end at the size of the input |
| `FastCdcLaws.CutExactly` | crates/fastcdc/src/lib.rs:381-412 | for every window: the least size in (min, avg] at which the small mask clears the fingerprint counted from min, else the least in (avg, cap] at which the large mask clears the one counted from avg, else the cap; and which of the four labels it gets |
| `FastCdcLaws.FeaturesReadBack` | crates/fastcdc/src/lib.rs:90-107 | the feature word gives back the entropy in its low byte, and above that only digit 24, 25, 26 or 27 is set, according to the phase |
| `FastCdcLaws.ChunkSizes` | crates/fastcdc/src/lib.rs:381-412 | the chunks tile the input; every non-final length is in (min, max]; each length fits its phase; only the last chunk can be a tail |
| `FastCdcLaws.FullFinalChunkIsHardMax` | crates/fastcdc/src/lib.rs:406-411 | a final chunk of exactly max_chunk bytes is labelled as hard maximum |
| `FastCdcLaws.CdcEditLocality` | crates/fastcdc/src/lib.rs:28-35 | for P+X+S and P+Y+S, non-final chunks ending inside P are kept, and after a common boundary in S all later chunks are identical up to the shift |
| `Chunking.EditLocality` | crates/fastcdc/src/lib.rs:28-35 | edit locality of every cut rule that decides by the bytes of its own chunk |
| `Chunking.SameLengths` | crates/fastcdc/tests/oracle.rs:120-161 | two rules put the same boundaries if and only if they take as many bytes at every chunk start of the first |
| `GearWindow.LastBytesDecide` | crates/fastcdc/src/scan.rs:21-35 | what the mask 2^b - 1 leaves of the fingerprint after at least b bytes, and with it the hit test, depends on the last b bytes only |
| `GearWindow.SeedForgotten` | crates/fastcdc/src/scan.rs:21-35 | a cold scan and one seeded with any fingerprint give the same answer if and only if they do on the first b - 1 bytes |
| `GearWindow.OracleAgreement` | crates/fastcdc/tests/oracle.rs:120-161 | the shipped cut is as long as the carried-fingerprint oracle's if and only if, on the first b - 1 bytes of each phase, cold and carried scan agree or differ only in a cut at the end of the chunk's last phase |
| `GearWindow.StreamMatchesOracle` | crates/fastcdc/tests/oracle.rs:120-161 | all boundaries equal the oracle's if and only if that holds at every chunk start |
| `GearWindow.OracleCanDiffer` | crates/fastcdc/tests/oracle.rs:120-161 | an input that is cut after 2 bytes, by the oracle after 3 |
| `GearWindow.RunFingerprint` | crates/fastcdc/src/scan.rs:75-85 | on a run of one byte the fingerprint after n steps is gear[v] * (2^n - 1) mod 2^32 |
| `GearWindow.RunHit` | crates/fastcdc/src/scan.rs:75-85 | a 2^b - 1 mask hits on a run if and only if 2^b divides gear[v] (once n >= 1) |
| `GearWindow.RunCut` | crates/fastcdc/src/lib.rs:381-412 | the first cut of a constant file, for every table entry and both masks |
| `GearWindow.ConstantFile` | crates/fastcdc/src/lib.rs:305-307 | if neither mask divides the entry, a constant file is cut into max_chunk pieces and one tail |
| `NamespaceCache.InvStep` | internal/database/cache.go:92-179 | every step of readers, of each process's flights and of writers keeps the protocol's invariant |
| `NamespaceCache.NoStaleRead` | internal/database/cache.go:17-39 | in every interleaving, a read that starts after a mutation's bump returns the row as of that mutation or later, whatever other writers' bumps do |
| `NamespaceCache.AllBumpedSettles` | internal/database/client.go:456-553 | when every commit is followed by a bump that took effect, the live generation is at the last commit |
| `NamespaceCache.LiveEntriesAreCurrent` | internal/database/cache.go:136-179 | then every entry under the live generation equals the database row |
| `NamespaceCache.ReadsAreCurrent` | internal/database/cache.go:136-179 | a read that starts then is answered with the database row, and fails if and only if there is none, until the next commit |
| `NamespaceCache.LostBumpLeavesStaleEntry` | internal/database/client.go:543-553 | a run with a lost bump that ends with a stale readable entry under the live generation |
| `NamespaceCache.StalenessBounded` | internal/database/client.go:539-542 | in every interleaving a hit returns a row as it was less than the time to live plus the time from load to SET ago, whatever bumps are lost and however late a SET lands |
| `NamespaceCache.StaleBeyondTtl` | internal/database/cache.go:164-168 | the bound is attained, for every time to live and every gap |
| `CacheLaws.FailureMeansAbsent` | internal/database/cache.go:136-179 | in every reachable state, a read that failed had no row to return at some commit since it was entitled to one |
| `CacheLaws.PresentIsAnswered` | internal/database/cache.go:136-179 | in every interleaving, a node that has a row in every table since the call is answered with its row, no older than the last effective bump before the call |
| `CacheLaws.UndisturbedHit` | internal/database/cache.go:147-152 | a read that finds a readable entry under the live generation returns it, and loads nothing |
| `CacheLaws.UndisturbedMiss` | internal/database/cache.go:159-178 | a read that does not returns the database's row of the moment and caches it under the live generation |
| `CacheLaws.UndisturbedFailure` | internal/database/cache.go:159-173 | a node without a row fails the read and caches nothing |
| `CacheLaws.LandAnswersAll` | internal/database/cache.go:159-178 | leader and followers of a flight all get the one row it loaded, and nobody else changes |
| `CacheLaws.NobodyStranded` | internal/database/cache.go:159-178 | in every reachable state the flight a reader waits for is under way and can move |
| `CacheLaws.OneLoadPerFlight` | internal/database/cache.go:126-136 | along any run the loader runs once for every flight started, however many readers miss at once |
| `Text.ParseFormatInt` | internal/auth/hmac.go:314-344 | decimal parsing undoes printing exactly on the 64-bit integers and refuses what does not fit |
| `Text.HexRoundTrip` | internal/auth/hmac.go:242-276 | hex decoding undoes encoding, and the text is lower-case hex |
| `Text.HexDecodeEncode` | internal/auth/hmac.go:409-416 | lower-case hex of even length is the encoding of what it decodes to, so comparing digests compares signatures |
| `Text.HexEncodeAt` | internal/auth/hmac.go:242-276 | each byte becomes its two digits, high one first, of 0123456789abcdef |
| `Text.UuidRoundTrip` | internal/auth/hmac.go:314-344 | parsing a printed tenant id gives it back |
| `TokenCodec.MessageInjective` | internal/auth/hmac.go:101-146 | two valid claims with the same canonical message are equal |
| `TokenCodec.QueryRoundTrip` | internal/auth/hmac.go:296-305 | each parameter of a printed query is read back |
| `TokenCodec.UrlRoundTrip` | internal/auth/hmac.go:308-344 | for every base without query and fragment, parsing the printed URL of a valid token gives back that token exactly when the base has no path, and nothing otherwise |
| `TokenCodec.HostIsPathless` | internal/auth/hmac.go:308-310 | the empty base, a host, and a host with a port are bases without a path |
| `TokenLaws.MessageText` | internal/auth/hmac.go:101-109 | the signed message, field by field |
| `TokenLaws.UrlLiteral` | internal/auth/hmac.go:296-310 | the printed URL of a well-formed token, parameter by parameter |
| `TokenLaws.ParsedIsWellFormed` | internal/auth/hmac.go:314-344 | whatever text is parsed, only a well-formed token with a 64-bit expiry comes out |
| `TokenLaws.SignedExactly` | internal/auth/hmac.go:242-276 | a token is signed if and only if the tenant is or becomes known, its current key has 32 bytes and the claims are well-formed; it carries the claims asked for, under the current version, and their signature under that key |
| `TokenLaws.RefusalsExactly` | internal/auth/hmac.go:379-416 | when each of the six outcomes of the checks before the replay check is given: structure, expiry too early or too late, no keys, no serving key of the version, wrong signature |
| `TokenLaws.AcceptedExactly` | internal/auth/hmac.go:379-439 | acceptance if and only if the token is well-formed, in its window, signed under the version's key, which is current or superseded less than seven days ago, its nonce is not on record and the block not found foreign; and when the three later refusals are given |
| `TokenLaws.ValidateLeaves` | internal/auth/hmac.go:379-439 | what a presentation leaves behind: the first key of a new tenant, and the nonce of an authentic token until now + ttl + skew |
| `TokenLaws.OneSignatureOneClaim` | internal/auth/hmac.go:409-416 | under a MAC without collisions, one signature under one key serves one token only |
| `TokenLaws.RotationHolds` | internal/auth/keys.go:123-199 | at every later point of every run: the old version verifies under its old key exactly for seven days after the rotation, and until the next rotation the new version is current and holds the fresh key |
| `TokenLaws.RetiredIsRefused` | internal/auth/keys.go:145-199 | from then on a token of the old version is refused, whoever signed it |
| `Tokens.FailuresKeepNonces` | internal/auth/hmac.go:379-439 | a token failing structure, freshness, key or signature leaves the nonce store unchanged, and a replay changes nothing live |
| `Tokens.MintedIsAccepted` | internal/auth/keys.go:123-199 | a minted token is accepted on first presentation inside its window after any events, rotations included, when ttl + skew is below the overlap |
| `Tokens.AcceptancesApart` | internal/auth/replay.go:84-102 | over every run two acceptances of one nonce are at least ttl + skew apart |
| `Tokens.SecondAcceptance` | internal/auth/hmac.go:379-425 | a token accepted twice was first accepted no later than the second it was minted in, hence one first accepted later never is again |
| `Tokens.BoundaryReplay` | internal/auth/hmac.go:379-425 | the run in which the remaining case occurs |
| `Tokens.SweepIsInvisible` | internal/auth/replay.go:84-102 | over every sequence of calls the capacity sweep never changes an answer |
| `TokenService.InMemoryNonceStore.Consume` | internal/auth/replay.go:84-102 | the map with its in-place sweep answers and changes as the specification does |
| `TokenService.StaticKms.VerificationKey` | internal/auth/keys.go:145-178 | returns the version's key if and only if it is current or superseded less than seven days ago, provisioning the tenant if allowed |
| `TokenService.StaticKms.Rotate` | internal/auth/keys.go:182-199 | retires the current key with the overlap and installs the next version |
| `TokenService.TokenGenerator.SignClaims` | internal/auth/hmac.go:242-276 | signs as specified, over the shared key store |
| `TokenService.TokenGenerator.Validate` | internal/auth/hmac.go:379-439 | validates as specified; acceptance if and only if the token is authentic, its nonce is not on record and its block is not foreign |
| `Registry.EnsureRowsExact` | internal/ingress/store.go:265-282 | adding the rows of a commit keeps every count exact |
| `Registry.InsertEntriesExact` | internal/ingress/store.go:284-299 | inserting manifest entries keeps every row's count equal to its number of entries |
| `Registry.DeleteEntriesExact` | db/stored-procedures.sql:173-205 | so does removing them |
| `Registry.HardDeleteExact` | cmd/ingest/gc_adapter.go:93-100 | so does the guarded delete, which removes exactly that row if nothing references it, and nothing otherwise |
| `CommitLaws.RefusalsExactly` | internal/ingress/store.go:203-299 | when each of the seven refusals is given, from the session record, the block list and the taken positions alone; a commit succeeds if and only if none applies |
| `CommitLaws.CommitMeans` | internal/ingress/store.go:265-299 | a commit adds to the manifest one entry for every block, naming its hash, and nothing else; every block has its row, no other row appears or goes, and each count grows by the number of blocks that name the row |
| `CommitLaws.DeleteMeans` | db/stored-procedures.sql:173-205 | removing entries removes exactly those listed, and no row |
| `RegistryProtocol.InvStep` | internal/gc/gc.go:326-451 | every step of commits, removals, cleanups and sweeps keeps the invariant |
| `RegistryProtocol.ReferencedRowsStay` | cmd/ingest/gc_adapter.go:75-100 | in every reachable state each count equals the number of entries, and no step removes a referenced row |
| `RegistryProtocol.EntriesHaveRows` | internal/ingress/store.go:265-299 | every manifest entry has its row, with a positive count |
| `RegistryProtocol.OneVersionPerSession` | internal/ingress/store.go:203-230 | if the database's clock is not ahead, each session yields at most one version and every later commit is refused, even after cleanup overwrote its status |
| `RegistryProtocol.SecondVersion` | cmd/ingest/gc_adapter.go:18-46 | if it is ahead by however little, some run makes two versions of one session |
| `RegistryProtocol.SweepsRespectRate` | internal/gc/gc.go:350-451 | between two counter resets n sweepers remove at most limit + n - 1 rows, besides those whose deletion was seen as an error; so one sweeper at most the limit |
| `RegistryProtocol.SweepersExceed` | internal/gc/gc.go:350-451 | for every limit and every set of n sweepers some run removes exactly limit + n - 1 rows |
| `SweepLaws.HourlyBound` | internal/gc/gc.go:326-451 | over any stretch of any run, n sweepers remove at most limit + n - 1 rows, besides those seen as errors, for every 3601 seconds, and twice that more |
| `SweepLaws.TwiceTheLimit` | internal/gc/gc.go:326-331 | for every limit, some run of one sweeper removes twice the limit within a second |
| `SweepLaws.SafetyWindowHolds` | cmd/ingest/gc_adapter.go:48-73 | along any run a sweep deletes only blocks it listed, and a row that has been there since was created before the safety window |
| `SweepLaws.YoungRowDeleted` | internal/gc/gc.go:350-451 | a run in which a row made again after the listing is deleted in the second of its creation |
| `Store.PgStore.CommitFile` | internal/ingress/store.go:196-318 | commits if and only if the session is open to the tenant for that many blocks and no two entries collide; then rows, entries (one per block), counts and status change together, and otherwise nothing |
| `Store.FakeStore.CommitFile` | internal/ingress/store.go:470-499 | which refusal is given when; refused commits change nothing, and successful ones are numbered 1 to n |
| `Store.SweepAllSound` | internal/gc/gc.go:350-451 | an undisturbed batch removes only listed unreferenced rows whose blob deletion succeeded, counts each once, stays within the limit and keeps counts exact |
| `Store.SweepAllExact` | internal/gc/gc.go:350-451 | a batch removes every listed unreferenced row whose blob deletion succeeds, and no other, up to where the limit is reached; short of the limit, all of them |
| `Store.GarbageCollector.ProcessBatch` | internal/gc/gc.go:350-451 | the batch loop does exactly that, and a dry run nothing |
| `Store.BatchIsARun` | internal/gc/gc.go:350-451 | what the batch loop does is what the interleaved protocol does when nothing comes between a sweeper's steps |
| `Election.OneLeaseHolder` | internal/lock/redlock.go:33-67 | in every run, with calls executed late or given up on, at most one elector holds an unexpired lease |
| `Election.TimelyLeaderHolds` | internal/lock/leader.go:72-96 | a leader whose last successful renewal was sent less than a lease ago and that is not resigning holds the lease |
| `Election.OneTimelyLeader` | internal/lock/leader.go:49-51 | so at most one such elector reports leadership |
| `Election.OthersNeverEvict` | internal/lock/redlock.go:33-91 | no command of another elector, release included, takes a held lease away |
| `Election.DeposedStepsDown` | internal/lock/leader.go:72-110 | along any run, a leader without the lease whose pending call, if any, was not granted stops leading with the outcome of its next call |
| `Election.LeaselessStepsDown` | internal/lock/leader.go:72-110 | any leader without the lease stops leading by the second outcome of a call of its own |
| `Election.OverlapFollows` | internal/lock/leader.go:72-96 | from every reachable state with a leader, any other idle elector can come to lead as well as soon as the key is absent |
| `Election.LateRenewalOverlaps` | internal/lock/leader.go:72-96 | a late renewal lets two electors report leadership |
| `Election.ResignationOverlaps` | internal/lock/leader.go:98-110 | so does a release not yet answered |
| `Election.UninterruptedBeat` | internal/lock/leader.go:72-96 | a heartbeat sent, executed and answered without delay is the single call of the class |
| `Election.RedisLocker.Perform` | internal/lock/redlock.go:33-91 | when each of the three commands takes effect, under lost requests and lost replies: what the key then holds and until when, and what the caller is told |
| `Election.LeaderElection.Beat` | internal/lock/leader.go:72-96 | a leader under its unexpired key stays leader with the same token and the key extended by a lease, any other steps down; a non-leader takes an absent key and no other |
| `Election.LeaderElection.Resign` | internal/lock/leader.go:98-110 | gives up leadership whatever the release reports, and frees the key if it is held |
| `ElectionLaws.DeliveredBeatRenews` | internal/lock/leader.go:76-84 | in every reachable state, a delivered heartbeat of a leader under its unexpired key leaves it leading with the same token and the key expiring a lease from now |
| `ElectionLaws.FailedBeatStepsDown` | internal/lock/leader.go:76-84 | one of a leader without the lease ends the leadership and leaves the key alone |
| `ElectionLaws.ResignationFrees` | internal/lock/leader.go:98-110 | a delivered resignation of a leader with the lease frees the key at once |
| `ElectionLaws.PunctualLeaderStays` | internal/lock/leader.go:72-96 | along any run, a leader each of whose refreshes is executed before its lease ends, and not given up on, leads throughout with the same token, whatever the others do and however late the answers |
| `SlidingWindow.WindowBound` | internal/ingress/redis_ratelimit.go:14-32 | for non-decreasing times every half-open interval of window length holds at most limit admissions |
| `SlidingWindow.AdmittedExactly` | internal/ingress/redis_ratelimit.go:14-32 | a request is admitted if and only if fewer than limit were admitted in the window ending with it, and the remaining count and limit reported are the true ones |
| `SlidingWindow.NothingCountingIsDropped` | internal/ingress/redis_ratelimit.go:21-27 | neither trimming nor key expiry drops an admission that still counts |
| `SlidingWindow.KeyGoneExactly` | internal/ingress/redis_ratelimit.go:21-27 | the key is gone if and only if no admission counts any more |
| `SlidingWindow.SortedSet.Admit` | internal/ingress/redis_ratelimit.go:14-32 | the script's in-place trim, add and expiry act as specified |
| `TokenBucket.TokensConserved` | internal/ingress/ratelimit.go:100-118 | over any stretch, tokens left plus admissions plus what went over the brim equal the starting tokens plus those earned |
| `TokenBucket.RefusedExactly` | internal/ingress/ratelimit.go:100-118 | a request is refused if and only if less than one token is left of all earned and neither spent nor spilled, and tokens spill only from a full bucket |
| `TokenBucket.AdmittedExactly` | internal/ingress/ratelimit.go:100-118 | by the clock alone: a call is admitted if and only if, counting it in, the admissions since the start do not exceed the starting tokens plus rps times the advance, and those since any earlier call the burst plus rps times the advance |
| `TokenBucket.FreshBurst` | internal/ingress/ratelimit.go:82-97 | a new tenant is admitted exactly burst times at one instant |
| `TokenBucket.AdmissionBound` | internal/ingress/ratelimit.go:100-118 | for any clock readings, admissions are at most burst + rps times the advance of lastTime |
| `TokenBucket.AllInRange` | internal/ingress/ratelimit.go:82-118 | every bucket stays within [0, burst] |
| `TokenBucket.TenantsIsolated` | internal/ingress/ratelimit.go:58-97 | a tenant's answers and bucket are what they would be if no other tenant called |
| `TokenBucket.TenantBucket.Take` | internal/ingress/ratelimit.go:100-118 | one call updates tokens and lastTime as specified |
| `TokenBucket.RateLimiter.AllowRequest` | internal/ingress/ratelimit.go:58-61 | one call creates at most the tenant's own bucket, spends from it and changes no other |
| `Breaker.PhaseMeaning` | internal/database/failover.go:64-103 | closed if and only if fewer than 3 failures since the last success; the cooldown runs from the third; half-open if and only if a probe is marked |
| `Breaker.OneProbePerOpening` | internal/database/failover.go:64-81 | from opening to the next success exactly one request passes if one is made after the cooldown, and none otherwise |
| `Breaker.HalfOpenWaits` | internal/database/failover.go:64-103 | half-open lets nothing through until the next success |
| `Breaker.ElectionsBounded` | internal/database/failover.go:64-103 | in every interleaving of atomic operations probe elections are at most one plus the resets |
| `Breaker.UninterruptedCall` | internal/database/failover.go:64-103 | a call whose atomic operations nothing interrupts does what the call-by-call model says |
| `Breaker.EarlyLoadedOlder` | internal/database/failover.go:64-103 | in every interleaving a request that passes within the cooldown of the opening in force loaded a time from before it, because the breaker was reopened since the load or the loaded time was not the latest opening's stamp; on its own stamp a request passes a cooldown later at the soonest |
| `Breaker.SafeExactly` | internal/database/failover.go:64-81 | in every reachable state a request past its load never passes early, whatever follows short of another opening, if and only if the latest opening is over, or its cooldown is, or the loaded time is not from before it |
| `Breaker.OwnStampIsSafe` | internal/database/failover.go:64-81 | so a request that loaded the latest opening's stamp never does |
| `Breaker.LoadedThreadCanBeEarly` | internal/database/failover.go:64-81 | from every reachable state, a request past its load can still pass in the moment of a later opening |
| `Breaker.UnmarkedExactly` | internal/database/failover.go:64-91 | in every interleaving half-open is unmarked if and only if a reset came after the latest election |
| `Breaker.UnmarkedCause` | internal/database/failover.go:64-91 | then a reset fell between the election behind half-open and its store, or a success is between its last two stores |
| `Breaker.StaleOpeningTime` | internal/database/failover.go:95-103 | an interleaving that lets a request pass before the opening time is stored |
| `Breaker.LateStampOverwrites` | internal/database/failover.go:95-103 | a run after which an uninterrupted call passes in the moment of the opening in force |
| `Breaker.StaleYetCooled` | internal/database/failover.go:64-81 | a request on another time than the stamp that passes after the cooldown all the same |
| `Breaker.ProbelessHalfOpen` | internal/database/failover.go:85-91 | an interleaving that ends half-open with no probe marked and no call in flight |
| `Breaker.RemarkedHalfOpen` | internal/database/failover.go:64-91 | one in which a later election has set the mark again |
| `Breaker.CircuitBreaker.Allow` | internal/database/failover.go:64-81 | answers and changes the fields as specified |
| `Breaker.CircuitBreaker.RecordSuccess` | internal/database/failover.go:85-91 | closes, clears and reports a change of state |
| `Breaker.CircuitBreaker.RecordFailure` | internal/database/failover.go:95-103 | counts with 32-bit wrap-around, and opens from closed only |
| `GoChunker.CutLenBounds` | internal/fastcdc/fastcdc.go:254-306 | every cut is positive, inside the window and at most the maximum |
| `GoChunker.BelowMinimum` | internal/fastcdc/fastcdc.go:254-306 | a window is cut below the minimum if and only if it is shorter itself, or the first phase finds nothing and the second hits that early |
| `GoChunker.BelowMinimumHappens` | internal/fastcdc/fastcdc.go:289-302 | under min = avg = 2 and mask 1 for the second phase, for every table, a window is cut after one byte if and only if that byte's entry is even |
| `GoChunker.ShippedEntryIsEven` | internal/fastcdc/fastcdc.go:37-58 | the shipped table's entry for byte 2 is even |
| `GoChunker.Chunker.FindCut` | internal/fastcdc/fastcdc.go:254-306 | the two loops find the least early hit, else the least late hit, else report none |
| `GoCutLaws.FoundCutExactly` | internal/fastcdc/fastcdc.go:254-306 | for every window: the least size in [min, avg) at which the small mask clears the fingerprint, else, from avg bytes on, the least size at which the large mask clears the one carried over from avg, or the maximum, else none |
| `GoCutLaws.UnclearedWindow` | internal/fastcdc/fastcdc.go:203-206 | a window below the maximum in which neither mask clears is one chunk |
| `GoCutLaws.BatchMeans` | internal/fastcdc/fastcdc.go:183-249 | a window is cut in turn from the front, a rest below the minimum only if the input has ended, and nothing else is held back |
| `GoCutLaws.PlanSums` | internal/fastcdc/fastcdc.go:183-249 | the sizes of a whole input add up to it |
| `GoCutLaws.SmallInput` | internal/fastcdc/fastcdc.go:183-249 | an input below the maximum is cut in turn from its first byte to its last |
| `GoChunker.Chunker.ReadUntilCut` | internal/fastcdc/fastcdc.go:183-249 | for every reader: buffer slices stay in range, the new chunks continue the tiling in the sizes of one round, held bytes are exactly the uncut ones, and after an error nothing is held |
| `GoChunker.Chunker.NextChunk` | internal/fastcdc/fastcdc.go:145-164 | returns the next chunk of the specified outcome through the pending queue, and its error only when nothing is left |
| `GoChunker.Chunker.ChunkAll` | internal/fastcdc/fastcdc.go:167-180 | all chunks returned tile all bytes delivered; without an error those are all bytes of the reader |
| `GoChunker.FailureReported` | internal/fastcdc/fastcdc.go:145-180 | for every reader, its first failure is reported if and only if the bytes before it, after whole reads and what they left uncut, leave nothing to cut; otherwise they are cut as if the input ended there and chunking goes on with what follows |
| `GoChunker.FailureSwallowed` | internal/fastcdc/fastcdc.go:153-156 | a single failure after any number of bytes that is no multiple of MaxChunk, in any split into reads, is not reported: the outcome is that of two readers one after the other |
| `GoChunker.CleanRounds` | internal/fastcdc/fastcdc.go:183-249 | if the reader never fails, the sizes depend on the input alone, not on how it was split into reads |
| `GoReader.Reader.ReadFull` | internal/fastcdc/fastcdc.go:188-189 | fills the slice across short reads; no error if and only if it is full, an end only with nothing read, an unexpected end only with some |
| `GoChunker.ChunkReader` | internal/fastcdc/fastcdc.go:119-180 | from a fresh chunker, for every reader: the chunks tile its bytes from offset 0 with positive sizes up to Max and each hash over exactly its bytes, all of them unless a failure is reported; sizes and failure are the specified ones |

## Left out

- SHA-256, HMAC, random bytes and UUID generation: digests are symbolic terms, the MAC is an arbitrary function, entropy is a parameter, new ids are assumed unused.
- Gear-table generation, its digest pin and the entropy quantisation: any table is allowed, and the entropy of a chunk is an arbitrary byte-valued function of it.
- Wrap-around of 64-bit offsets, of `expiry + skew` and of nanosecond clocks: those integers are unbounded here; 32-bit fingerprints and the breaker's failure counter do wrap.
- The token clock is in whole seconds, one non-decreasing reading shared by signing, validation and the nonce store; the lock server and its electors, the namespace cache and its database, the sliding window and the breaker likewise share one clock each. In the registry the database's clock differs from the application's by a constant.
- `url.Parse` of fragments, and its verdict on a host in brackets, which is a parameter; `uuid.Parse` beyond the canonical form. Bases that contain `?` or `#` are outside the round trip: they can bring a query of their own.
- The Redis nonce store, the Redis-backed counters' own failure modes other than lost or failed commands, and the hit and miss counters of the cache. A loader fails only for want of a row: other database errors are not part of the model.
- The namespace cache and the interleaved sweeps and cleanups are transition systems on values: update in place and aliasing are not captured there, only in the classes of `TokenService`, `Store`, `Election` and the other objects.
- Blob presence after a commit that races a sweep: no property of the code fences it, so only registry rows are claimed.
- `next_version_number`, `expire_stale_upload_sessions` and other stored procedures; the reference-count triggers are taken as described in internal/cas/registry.go:6-8.
- Reader errors delivered together with bytes in one Go `Read`: an error comes alone here. The shipped gear table is not otherwise computed: every table is allowed.
- Floating-point rounding in the token bucket: real arithmetic, with non-negative rate and burst where a range is claimed.
- Sub-millisecond leases and windows, which the Redis commands would round.
- The Go chunker for configurations outside 0 < Min <= Avg <= Max, and its default substitution for zero fields.
- HTTP handlers, middleware, audit, metrics, telemetry, Kafka and object-store clients, RBAC, SSO, SCIM, billing, MIME tables, retry helpers, the SDK's resume path, the TypeScript chunker and the web interface: plumbing, or only easy members.
