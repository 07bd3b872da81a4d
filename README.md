# rkjdid/util: time series and durations in Dafny

This project models two parts of the Go package `util`:

- **`TimeSeries`**: a naive series of ints with a Start and an End time, an
  Interval between values and a maximum length (0 means unbounded). When the
  series is full, `Add` drops the oldest value and moves Start on by one
  Interval. After appending, `Add` broadcasts the value to every subscriber
  channel. A channel whose buffer is full is dropped from the registry; it is
  not closed. `Padded` left-pads the data with its oldest value.
  `SetMaxLength` crops the oldest values and shifts Start once per dropped
  value.
- **`Duration`**: a nanosecond count (`int64`). It has a 9-byte binary form:
  a version byte followed by the value, big-endian, in two's complement. The
  gob hooks reuse the binary form. The JSON form is the text form between
  double quotes.

Files:

- `wrappers.dfy`: the `Option` and `Result` datatypes.
- `duration.dfy` (module `Durations`): the codec as functions on byte
  sequences, and the pointer-receiver decoders as methods of a `Duration`
  class.
- `series_laws.dfy` (module `SeriesLaws`): the retention rule on plain
  sequences. It covers one Add (`Appended`), a run of Adds (`AddAll`,
  `Evictions`) and the newest-`n` window (`Newest`).
- `timeseries.dfy` (module `Series`): the `TimeSeries` class, with buffered
  channels as objects.
  - `Valid()` is its invariant. The data fit the maximum length and are the
    newest values ever added; this is kept against a ghost history `added`.
  - Every registered id lies in `0 <= id < currentId`, below the next id
    that `Subscribe` hands out.
  - Every registered channel is open, holds 36 slots and is not over-full.
    The ghost `channels` set is exactly the registered channels.
- `scenarios.dfy` (module `Scenarios`): `AddSequence` ties a run of `Add`
  calls to `AddAll` and `Evictions`. The rest replays the repository's
  time-series tests, with each outcome stated in the method's contract.

Times are unbounded integers of nanoseconds. The current time is a
parameter `now` wherever the Go code calls `time.Now()`. Parsing of
duration text (`UnmarshalText`) is a function parameter `text`, which
returns `None` when both Go parsers fail.

## Model

| member | source | states |
|---|---|---|
| Durations.MarshalBinary | duration.go:15-29 | the encoding is 9 bytes; byte 0 is version 1; bytes 1-8 read big-endian are the value's 64-bit two's complement |
| Durations.TwosComplement | duration.go:18-25 | the unsigned 64-bit reading of an int64: the value itself when non-negative, 2^64 higher when negative |
| Durations.LowByte | duration.go:18-25 | Go's `byte(x)`: it keeps values below 256 and differs from `x` by a multiple of 256 |
| Durations.IsWordBytes | duration.go:18-25 | the eight bytes `byte(x >> 56)` … `byte(x)` in order: a word below 256 gives seven zero bytes then itself, and a small negative word gives seven ff bytes first |
| Durations.BytesOfWord | duration.go:18-25 | the eight bytes `byte(d >> 56)` … `byte(d)` of a word, read big-endian, give the word back modulo 2^64 |
| Durations.WordOfBytes | duration.go:47-54 | every byte of a big-endian reading is the matching shifted byte of the word it spells, so reading and writing are inverse |
| Durations.BigEndianInjective | duration.go:47-54 | two 8-byte strings with the same big-endian reading are equal |
| Durations.FromBigEndian | duration.go:47-54 | the int64 assembled from 8 bytes has two's complement equal to their big-endian reading, the top byte's shift by 56 wrapping into the sign |
| Durations.DecodeBinary | duration.go:32-56 | the checks in the source's order: empty input is NoData; a first byte other than 1 is UnsupportedVersion; a length other than 9 is InvalidLength; and each holds exactly when it fires. A success re-encodes to the input bytes |
| Durations.EncodingDeterminesBytes | duration.go:42-54 | a version-1 string of 9 bytes is determined by the value it decodes to |
| Durations.RoundTrip | duration.go:15-56 | decoding the encoding of any int64 gives it back |
| Durations.DecodesExactlyEncodings | duration.go:15-56 | UnmarshalBinary yields `d` if and only if the input is the encoding of `d` |
| Durations.SecondEncoding | duration.go:15-29 | one second encodes as 01 00 00 00 00 3b 9a ca 00 |
| Durations.NegativeEncodings | duration.go:15-29 | -1 encodes as 01 and eight ff bytes; the least int64 as 01 80 and seven zero bytes |
| Durations.GobEncode | duration.go:59-61 | the same 9-byte layout as MarshalBinary |
| Durations.DecodeGob | duration.go:64-66 | fails exactly on wrong length or version; a success re-encodes to the input |
| Durations.GobRoundTrip | duration.go:59-66 | GobDecode inverts GobEncode |
| Durations.JsonIndexable | duration.go:77-81 | the inputs on which UnmarshalJSON's indexing and slicing do not panic: every one except the empty input and a lone quote byte |
| Durations.DecodeJson | duration.go:76-82 | InvalidJson exactly when the first or last byte is not a double quote; otherwise the result is the text parse of the bytes between them, and TextError exactly when that parse fails |
| Durations.QuotedText | duration.go:76-82 | a quoted text decodes as the text parse of what is inside the quotes |
| Durations.Duration.constructor | duration.go:10 | a Duration holding the given value |
| Durations.Duration.UnmarshalBinary | duration.go:32-56 | returns DecodeBinary's error, writing the decoded value on success and leaving the value unchanged on failure |
| Durations.Duration.GobDecode | duration.go:64-66 | the same as UnmarshalBinary |
| Durations.Duration.UnmarshalJSON | duration.go:76-82 | returns DecodeJson's error, writing the parsed value on success and leaving the value unchanged on failure; callable exactly on the inputs the source does not panic on |
| SeriesLaws.Evicts | timeseries.go:78 | the eviction guard: it fires only on non-empty data, and never when the series is unbounded |
| SeriesLaws.AddAll | timeseries.go:77-84 | the data after a run of Adds: at most the old data and the values together, within a positive capacity the old data fit, and ending with the last value added |
| SeriesLaws.Evictions | timeseries.go:78-83 | the number of Adds in a run that evict, and so shift Start: at most the number of Adds, none when unbounded, and the data's growth is exactly the Adds minus the evictions |
| SeriesLaws.Newest | timeseries.go:114-119 | the newest `n` values: a suffix of the input of length min(len, n) |
| SeriesLaws.Appended | timeseries.go:77-84 | one Add keeps the new value last, grows by one unless it evicts, and stays within a positive capacity |
| SeriesLaws.AppendedIsSuffix | timeseries.go:77-84 | after an Add, the data are still a suffix of everything ever added |
| SeriesLaws.AppendedNewest | timeseries.go:77-84 | an Add on the newest `m` values gives the newest `m` of the extended history; it evicts exactly when the history already had `m` values |
| SeriesLaws.AddAllSnoc | timeseries.go:77-84 | a run of Adds extends by one Add, and so does its eviction count |
| SeriesLaws.AddAllKeepsNewest | timeseries.go:77-84 | under a positive capacity, a run of Adds keeps exactly the newest capacity-many values of the old data followed by the added ones |
| SeriesLaws.EvictionsBeyondCapacity | timeseries.go:77-83 | the number of evictions in a run, and so of Interval shifts of Start, is the total minus what the capacity retains |
| SeriesLaws.AddAllWithinCapacity | timeseries.go:77-84 | with no limit, or while the total fits, a run of Adds only appends and never shifts Start |
| Series.Channel.constructor | timeseries.go:54 | a new channel is empty, open and of the given capacity |
| Series.Channel.Send | timeseries.go:135 | a send with room appends the value to the buffer |
| Series.Channel.Close | timeseries.go:68 | closing an open channel keeps its buffered values |
| Series.TimeSeries.constructor | timeseries.go:31-44 | a negative length is excluded, since the source panics on it; the series starts empty and valid with Start = End = now, no subscribers and id 0 next |
| Series.TimeSeries.Subscribe | timeseries.go:49-61 | a fresh empty open channel of size 36 is registered under the next id (the old currentId, above every registered id), and currentId moves on by one; the invariant is kept |
| Series.TimeSeries.Unsubscribe | timeseries.go:64-72 | a registered id is removed and its channel closed with its buffer intact; an unknown id changes nothing; the invariant is kept |
| Series.TimeSeries.Add | timeseries.go:77-87 | the data become Appended, Start shifts by Interval exactly when it evicts, End = now; each subscriber with room receives `v` and stays registered, and each full one is dropped without being closed; the invariant is kept |
| Series.TimeSeries.Append | timeseries.go:78-85 | the data half of Add: Appended data, the Start shift on eviction, End stamped, and the data still the newest values added |
| Series.TimeSeries.Broadcast | timeseries.go:128-139 | each registered channel with room gets `v` appended and stays; each full one is removed from the registry, left open and unchanged; no id is added |
| Series.TimeSeries.Deliver | timeseries.go:131-136 | one step of broadcast: a full channel is dropped from the registry untouched, otherwise `v` is sent and the registry is unchanged |
| Series.TimeSeries.Padded | timeseries.go:90-106 | at least maxLength values: the first maxLength of them; fewer: exactly maxLength values, ending with the data and padded on the left with the oldest value, or 0 when empty |
| Series.TimeSeries.SetMaxLength | timeseries.go:110-120 | length must be non-negative, since the source panics otherwise; the data become the newest `length` values and Start shifts by one Interval per dropped value; the invariant is kept |
| Series.TimeSeries.ResetStartTime | timeseries.go:124-126 | Start becomes now minus len(Data) Intervals |
| Scenarios.AddSequence | timeseries.go:77-87 | a run of Adds leaves AddAll's data and shifts Start by Interval once per eviction |
| Scenarios.StartStep | timeseries.go:78-84 | one more Add of a run moves Start by one more Interval exactly when it evicts |
| Scenarios.Filled | timeseries.go:77-87 | a new series given Adds that fit its capacity holds exactly those values, with Start where it began and no channels |
| Scenarios.AddScenario | timeseries_test.go:21-43 | capacity 5: [0], then [0, 1, 2, 3, 4], then [1, 2, 3, 4, 5], with Start shifted by one second in all |
| Scenarios.PaddedScenario | timeseries_test.go:45-64 | capacity 5: five zeros, then five 1s, then [1, 1, 1, 1, 2] |
| Scenarios.SetMaxLengthScenario | timeseries_test.go:66-78 | [1, 2] cropped to length 1 leaves [2] and shifts Start by one second |
| Scenarios.SubscribedPair | timeseries_test.go:81-96 | after Subscribe, Add(1) and Add(2) the channel holds [1, 2], is still registered, and the data are [1, 2] |
| Scenarios.SubscribeScenario | timeseries_test.go:80-105 | after Unsubscribe the channel is closed, so a reader draining it receives [1, 2], which equal the data |

## Left out

- The `sync.RWMutex` and all concurrency: each method runs atomically. The goroutine that drains a channel is not modelled, so a buffer holds everything sent to it.
- Series.TimeSeries.Broadcast: visits ids in ascending order, where Go ranges over the map in random order. Each channel's outcome depends only on that channel, so the final state is the same.
- `log.Printf` when a full channel is dropped is output only and is not modelled.
- `time.Now()` becomes the parameter `now`. NewTimeSeries reads the clock twice, so Go's Start and End may differ by a few nanoseconds; the constructor takes them equal.
- Time values are unbounded integers. Overflow of `time.Time.Add` and of the `stripN * Interval` products in SetMaxLength and ResetStartTime is not modelled.
- Subscribe's lazy creation of a nil subscriber map is not modelled. Go allows a zero-value `TimeSeries{}`, which that check exists for. Such a series behaves like the constructor's state with length 0 and zero times: reads, ranges and deletes on a nil map act as on an empty one. So the model loses nothing by building every series with the constructor.
- Durations.MarshalBinary and Durations.GobEncode: return only the bytes, because the Go error result is always nil.
- `String`, `MarshalText`, `MarshalJSON` and the parsing inside `UnmarshalText` (`time.ParseDuration`, then `strconv.Atoi`) are not modelled: they are text formatting and parsing from the standard library. The parse is the parameter `text`.
- Durations.Duration.UnmarshalJSON: requires the inputs the source does not panic on: at least one byte, and at least two when the first byte is a quote.
- Series.TimeSeries.Padded: returns a new sequence, where Go's `d.Data[:d.maxLength]` shares storage with `Data`. A caller writing into that result changes the series in Go; this aliasing is not captured.
- config.go, float.go and localized_time.go are not part of this model.
