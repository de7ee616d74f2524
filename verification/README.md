# Kahawai plugin common code: frame-rate table and transport init parameters

A Dafny model of `ecosystem/ffmpeg_plugin/kahawai_common.c`, the shared part of
the Kahawai FFmpeg plugins of the Media Transport Library. The file does two
unrelated things.

- **Frame-rate classification** (`fps_table`, `get_fps_table`). A frame rate
  `num/den` becomes `fps = num*100/den`, in hundredths of a frame per second,
  computed with C integer arithmetic. `fps` is then looked up in an ordered
  table of eight tolerance bands, each the nominal rate ±1.00 fps with both
  bounds inclusive. The first band that holds `fps` gives the transport's
  `st_fps` value. When no band holds it, the result is the `ST_FPS_MAX`
  sentinel.
- **Transport init parameters** (`kahawai_init`, `kahawai_get_handle`,
  `kahawai_set_handle`). A static `mtl_init_params` record is filled in from
  the plugin's options and handed to the transport's `mtl_init`. A separate
  static cell holds the shared transport handle.

Files:

- `c_types.dfy` (`CTypes`) covers the C semantics the code relies on:
  `int32`, truncating division, conversion to `unsigned int`, `strncpy` into
  a bounded buffer, and nullable pointers.
- `fps_table.dfy` (`FpsTable`) holds the table, the `fps` computation,
  first-match lookup, and `get_fps_table` written as the source's loop.
- `fps_facts.dfy` (`FpsFacts`) gives a reference definition of the disjoint
  range each rate effectively owns. It proves that lookup agrees with it, and
  derives the overlaps, the unsupported rates and the classification of
  common nominal rates.
- `kahawai_init.dfy` (`KahawaiInit`) holds the static state as an immutable
  record, and `kahawai_init` and the handle getter/setter as functions over
  it. `mtl_init` is a function parameter.
- `kahawai_facts.dfy` (`KahawaiFacts`) covers the early return, idempotence,
  and settings that carry over between calls. Over any sequence of calls it
  proves a state invariant and that the getter returns the last value set.
- `kahawai_statics.dfy` (`KahawaiStatics`) puts the same statics in a class
  whose methods are the C entry points.

Consequences of first-match order over overlapping bands, all proved:

- 30/1 (`fps` 3000) is 29.97p and 24/1 (`fps` 2400) is 25p.
- 24000/1001 (`fps` 2397) is 24p.
- 30p is returned only for `fps` 3098..3100.
- 23.98p is returned only for `fps` 2298..2299.

Behaviour of the code worth knowing:

- The bands overlap (29.97p/30p and 23.98p/24p/25p), so table order decides
  the answer; see `TableOverlaps`.
- This file has no reference counting or locking, and `kahawai_init` does not
  store the handle it returns: storing it is left to `kahawai_set_handle`.
- `active_session_cnt` is declared here, without `static`, but never written
  by this file.
- A null or unparsable address does not leave the record untouched:
  `num_ports`, the port name and any octets `sscanf` already stored have been
  written before the early return.
- A zero denominator is not checked: the division is undefined behaviour in
  C, so the model excludes it by precondition.
- The port name is not checked for emptiness or length: `strncpy` keeps at
  most `MTL_PORT_MAX_LEN` characters of whatever is passed.

## Model

| member | source | states |
|---|---|---|
| CTypes.TruncDiv | ecosystem/ffmpeg_plugin/kahawai_common.c:39 | C's `/` on `int`: the remainder is smaller than the divisor and is zero or has the dividend's sign, and the quotient is no larger in magnitude than the dividend |
| CTypes.TruncDivSigns | ecosystem/ffmpeg_plugin/kahawai_common.c:39 | C's quotient equals Dafny's for a non-negative dividend and positive divisor; operands of opposite signs with the dividend at least as large give a negative quotient; a dividend smaller than the divisor in magnitude gives 0 |
| CTypes.ToUint32 | ecosystem/ffmpeg_plugin/kahawai_common.c:39 | storing an `int` into `unsigned int` gives the value below 2^32 congruent to it modulo 2^32; negatives land at 2^31 or above |
| CTypes.Truncate | ecosystem/ffmpeg_plugin/kahawai_common.c:53 | the buffer filled by `strncpy` holds a prefix of the source of length min(len, `MTL_PORT_MAX_LEN`) |
| FpsTable.FpsHundredths | ecosystem/ffmpeg_plugin/kahawai_common.c:39 | `fps` fits `unsigned int`; for `num >= 0`, `den > 0` it is `num*100` divided by `den` rounded down; for `num < 0`, `den < 0` it is `-num*100` divided by `-den` rounded down; a negative rate of magnitude 0.01 fps or more wraps to 2^31 or above; a rate below 0.01 fps in magnitude gives 0 |
| FpsTable.FirstMatchFrom | ecosystem/ffmpeg_plugin/kahawai_common.c:41-45 | the scan stops at the first band from `k` on that holds `fps`; no band it passed holds `fps`, and it ends at the table's end only if none does |
| FpsTable.Classify | ecosystem/ffmpeg_plugin/kahawai_common.c:41-46 | the result is the target of the lowest-index band whose inclusive range holds `fps`, or `ST_FPS_MAX` when no band does |
| FpsTable.GetFpsTable | ecosystem/ffmpeg_plugin/kahawai_common.c:37-47 | the source's loop over `fps_table` returns the first-match answer for `num*100/den` |
| FpsTable.FirstMatchIsUnique | ecosystem/ffmpeg_plugin/kahawai_common.c:41-46 | a table and a rate have exactly one first-match answer, so any scan meeting the relational statement agrees with the lookup |
| FpsFacts.ClassifyIsEffectiveRate | ecosystem/ffmpeg_plugin/kahawai_common.c:27-46 | for every `fps`, lookup over `fps_table` equals a reference listing disjoint ranges: 23.98p 2298-2299, 24p 2300-2399, 25p 2400-2600, 29.97p 2897-3097, 30p 3098-3100, 50p 4900-5100, 60p 5900-6100, 119.88p 11888-12088, otherwise unsupported |
| FpsFacts.UnsupportedIffOutsideBands | ecosystem/ffmpeg_plugin/kahawai_common.c:27-46 | `ST_FPS_MAX` is returned exactly when `fps` lies outside [2298,2600], [2897,3100], [4900,5100], [5900,6100] and [11888,12088] |
| FpsFacts.P30OnlyAbove3097 | ecosystem/ffmpeg_plugin/kahawai_common.c:27-31 | 30p is returned exactly for `fps` 3098 to 3100, because the earlier 29.97p band takes the rest of the 30p band |
| FpsFacts.P23_98OnlyBelow2300 | ecosystem/ffmpeg_plugin/kahawai_common.c:27-31 | 23.98p is returned exactly for `fps` 2298 and 2299, because the earlier 25p and 24p bands take the rest |
| FpsFacts.P29_97BoundsInclusive | ecosystem/ffmpeg_plugin/kahawai_common.c:41-43 | both band ends 2897 and 3097 give 29.97p, and 2896 is unsupported |
| FpsFacts.OverlapsResolvedByOrder | ecosystem/ffmpeg_plugin/kahawai_common.c:27-43 | `fps` 3000 gives 29.97p, not 30p, and `fps` 2400 gives 25p, not 24p |
| FpsFacts.NominalRates | ecosystem/ffmpeg_plugin/kahawai_common.c:37-46 | 24000/1001 gives 24p; 24/1 and 25/1 give 25p; 30000/1001 and 30/1 give 29.97p; 50/1 gives 50p; 60000/1001 and 60/1 give 60p; 120000/1001 gives 119.88p |
| FpsFacts.NegativeRatesUnsupported | ecosystem/ffmpeg_plugin/kahawai_common.c:39-46 | a rate with numerator and denominator of opposite signs, of magnitude 0.01 fps or more, wraps in `unsigned int` and is unsupported |
| FpsFacts.TableOverlaps | ecosystem/ffmpeg_plugin/kahawai_common.c:27-31 | the table's bands are not pairwise disjoint: 3000 is in both the 29.97p and 30p bands, and 2400 is in both the 25p and 24p bands |
| FpsFacts.DisjointTableOrderFree | ecosystem/ffmpeg_plugin/kahawai_common.c:41-46 | on a pairwise-disjoint table, any band holding the rate gives the answer whatever its position; `fps_table` does not meet that assumption |
| FpsFacts.EarlierBandWins | ecosystem/ffmpeg_plugin/kahawai_common.c:41-44 | on any table, a band holding the rate means the answer is the target of that band or of an earlier band that also holds it |
| KahawaiInit.StoreOctets | ecosystem/ffmpeg_plugin/kahawai_common.c:58-60 | the octets `sscanf` converted replace the leading octets of the address field, and the rest keep their old values |
| KahawaiInit.Init | ecosystem/ffmpeg_plugin/kahawai_common.c:49-80 | `num_ports` and the port name are written first, on every path. A null or unparsable address returns NULL and changes nothing else except the octets already stored. On success: caps are written only for positive arguments; flags, log level and null pointers are fixed; DMA is set only for a named device; and `mtl_init` gets the finished record. The shared handle is never touched |
| KahawaiInit.GetHandle | ecosystem/ffmpeg_plugin/kahawai_common.c:82 | returns the shared handle cell; `GetHandleIsLastSet` ties it to the last set call |
| KahawaiInit.SetHandle | ecosystem/ffmpeg_plugin/kahawai_common.c:84 | the shared handle becomes the argument, and the parameter record and the session counter stay as they were; `GetAfterSet` states get-after-set |
| KahawaiFacts.FailedInitSkipsTransport | ecosystem/ffmpeg_plugin/kahawai_common.c:55-63 | with a null or unparsable address the outcome is NULL and is the same whatever `mtl_init` would do, so the transport is never reached |
| KahawaiFacts.SuccessfulInitUsesFinalParams | ecosystem/ffmpeg_plugin/kahawai_common.c:65-79 | on success the returned handle is `mtl_init` of exactly the record left behind, and that record does not depend on `mtl_init`, given that `mtl_init` does not write through `&param` |
| KahawaiFacts.InitIdempotent | ecosystem/ffmpeg_plugin/kahawai_common.c:49-80 | a second call with the same arguments leaves the same record and returns the same value, given that `mtl_init` does not write through `&param` and returns the same handle for the same record |
| KahawaiFacts.EarlierSettingsSurvive | ecosystem/ffmpeg_plugin/kahawai_common.c:35-77 | the record is static: a cap and DMA device set by an earlier successful call remain after a later call with a non-positive cap and no DMA device |
| KahawaiFacts.GetAfterSet | ecosystem/ffmpeg_plugin/kahawai_common.c:82-84 | the getter returns what the setter stored, setting leaves the record alone, and restoring the old handle restores the old state |
| KahawaiFacts.InitialValid | ecosystem/ffmpeg_plugin/kahawai_common.c:33-35 | the zero-initialised statics satisfy the state invariant |
| KahawaiFacts.StepPreservesValid | ecosystem/ffmpeg_plugin/kahawai_common.c:49-84 | each of `kahawai_init` and `kahawai_set_handle` keeps the invariant: one port at most; flags empty or exactly NUMA binding plus auto start/stop; caps non-negative and zero until a successful init; at most one DMA device, with no name when there is none; the session counter zero, as no function of this file writes it |
| KahawaiFacts.RunPreservesValid | ecosystem/ffmpeg_plugin/kahawai_common.c:33-84 | every state reachable through any sequence of this file's calls satisfies the invariant; writes to `active_session_cnt` from other files are outside it |
| KahawaiFacts.LastSetHandleCons | ecosystem/ffmpeg_plugin/kahawai_common.c:82-84 | finding the last set call from the end agrees with carrying the latest one forward from the front |
| KahawaiFacts.GetHandleIsLastSet | ecosystem/ffmpeg_plugin/kahawai_common.c:49-84 | after any sequence of calls the getter returns the argument of the last `kahawai_set_handle`, or the initial handle if there was none; `kahawai_init` never stores its result |
| KahawaiStatics.Statics.KahawaiInit | ecosystem/ffmpeg_plugin/kahawai_common.c:49-80 | the imperative entry point rewrites only `param`, returns `Init`'s handle, returns NULL on a bad address, and keeps the invariant `Valid` |
| KahawaiStatics.Statics.KahawaiGetHandle | ecosystem/ffmpeg_plugin/kahawai_common.c:82 | returns the stored handle |
| KahawaiStatics.Statics.KahawaiSetHandle | ecosystem/ffmpeg_plugin/kahawai_common.c:84 | stores the handle, changes no other field, and keeps the invariant `Valid` |

## Left out

- `mtl_init` and the transport library behind it are a foreign call. The model takes it as an arbitrary pure function from the finished parameter record to a handle. This assumes two things the source does not promise: that `mtl_init` does not write through the non-const `&param` it receives, and that it returns the same handle for the same record. `KahawaiFacts.InitIdempotent` and `KahawaiFacts.SuccessfulInitUsesFinalParams` rest on both.
- `sscanf("%hhu.%hhu.%hhu.%hhu")` is not modelled character by character. That covers whitespace, signs and values above 255 wrapping modulo 256. The model takes as input the octets it converted, in order, zero to four of them.
- `strncpy` is modelled as keeping a prefix of at most `MTL_PORT_MAX_LEN` characters. The missing terminator when the name is too long is not modelled.
- A null `port` is not modelled: `InitArgs.port` is always a string, while the source passes `port` to `strncpy` unconditionally, which is undefined behaviour for a null pointer.
- Port and DMA device names are Dafny strings of Unicode characters, and the length bound counts characters. In the source, `MTL_PORT_MAX_LEN` counts bytes of a C string, so a multi-byte name would be cut at a different point.
- `av_log` calls are logging side effects only.
- `MTL_PORT_MAX_LEN` (64), `MTL_IP_ADDR_LEN` (4) and the log-level and flag enumerators are constants from the transport's public headers, which are not part of this model. The `st_fps` values appear only as the enumerators this file uses, not as their numeric codes.
- `tx_sessions_cnt_max` / `rx_sessions_cnt_max` keep the `int` argument as it is. The header declaring those fields is not part of this model, so any narrowing on assignment is not modelled.
- Fields of `mtl_init_params` that this file never writes are not represented. Neither are the ports other than `MTL_PORT_P` or DMA devices other than 0.
- A zero denominator and an `int` overflow of `num*100` are undefined behaviour in C. `FpsTable.WellDefined` excludes them instead of modelling them.
- No acquire/release reference counting, teardown or locking is modelled, because the file has none. `active_session_cnt` appears only as a field that nothing in this file writes.
- `active_session_cnt` has external linkage (kahawai_common.c:34 declares it without `static`), so other files of the plugin may write it. Those writes are not modelled: `KahawaiFacts.Valid` and the lemmas over call sequences cover only this file's own functions.
- FpsTable.FpsHundredths: for a numerator and denominator of opposite signs, the contract only says that a nonzero quotient wraps to 2^31 or above. It does not state the exact wrapped value. `CTypes.TruncDiv` and `CTypes.ToUint32` state that exact value.
- KahawaiStatics.Statics.KahawaiInit: its contract is stated through `old` and `modifies`, as the other `Statics` methods that change state are. The same behaviour is stated without state on `KahawaiInit.Init`.
