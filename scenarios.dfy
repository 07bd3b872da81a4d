/**
 * Runs of the time series against the model's contracts: a sequence of
 * Adds, and the scenarios that the repository's tests pin down.
 */
module Scenarios {
  import opened SeriesLaws
  import opened Series
  import opened Durations

  /** One second, in nanoseconds. */
  const Second: int64 := 1_000_000_000

  /** Adding every value of `vs` in turn keeps what AddAll keeps, and shifts Start once per eviction. */
  method AddSequence(ts: TimeSeries, vs: seq<int>, now: int)
    requires ts.Valid()
    modifies ts, ts.channels
    ensures ts.Valid()
    ensures ts.data == AddAll(old(ts.data), ts.maxLength, vs)
    ensures ts.start == old(ts.start) + Evictions(old(ts.data), ts.maxLength, vs) * ts.interval as int
    ensures ts.maxLength == old(ts.maxLength) && ts.interval == old(ts.interval)
    ensures ts.channels <= old(ts.channels)
  {
    ghost var step := ts.interval as int;
    var i := 0;
    while i < |vs|
      invariant 0 <= i <= |vs|
      invariant ts.Valid()
      invariant ts.channels <= old(ts.channels)
      invariant ts.maxLength == old(ts.maxLength) && ts.interval == old(ts.interval)
      invariant ts.data == AddAll(old(ts.data), ts.maxLength, vs[..i])
      invariant ts.start == old(ts.start) + Evictions(old(ts.data), ts.maxLength, vs[..i]) * step
    {
      ghost var before := ts.start;
      ts.Add(vs[i], now);
      StartStep(old(ts.data), ts.maxLength, vs, i, step, old(ts.start), before, ts.start);
      i := i + 1;
    }
    assert vs[..i] == vs;
  }

  /** One more Add of a run: AddAll takes one more step, and Start one more Interval if it evicts. */
  lemma StartStep(data: seq<int>, maxLength: nat, vs: seq<int>, i: nat, step: int, start: int, before: int, after: int)
    requires i < |vs|
    requires before == start + Evictions(data, maxLength, vs[..i]) * step
    requires after == before + (if Evicts(|AddAll(data, maxLength, vs[..i])|, maxLength) then step else 0)
    ensures after == start + Evictions(data, maxLength, vs[..i + 1]) * step
    ensures AddAll(data, maxLength, vs[..i + 1]) == Appended(AddAll(data, maxLength, vs[..i]), maxLength, vs[i])
  {
    assert vs[..i + 1] == vs[..i] + [vs[i]];
    AddAllSnoc(data, maxLength, vs[..i], vs[i]);
    ShiftStep(Evictions(data, maxLength, vs[..i]), step);
  }

  /** One more eviction moves Start by one more step. */
  lemma ShiftStep(e: int, step: int)
    ensures (e + 1) * step == e * step + step
  {
  }

  /** A fresh series of capacity `length` after adding `vs`, which fit: it holds `vs` and Start has not moved. */
  method Filled(length: nat, vs: seq<int>, now: int) returns (ts: TimeSeries)
    requires |vs| <= length
    ensures fresh(ts) && ts.Valid()
    ensures ts.data == vs && ts.maxLength == length && ts.start == now && ts.interval == Second
    ensures ts.channels == {}
  {
    ts := new TimeSeries(length, Second, now);
    AddSequence(ts, vs, now);
    AddAllWithinCapacity([], length, vs);
  }

  /** Capacity 5: Add(0) gives [0], then 1..4 give [0, 1, 2, 3, 4], then 5 evicts 0 and shifts Start by a second. */
  method AddScenario(now: int) returns (first: seq<int>, five: seq<int>, six: seq<int>, shift: int)
    ensures first == [0] && five == [0, 1, 2, 3, 4] && six == [1, 2, 3, 4, 5]
    ensures shift == Second as int
  {
    var ts := Filled(5, [0], now);
    first := ts.data;
    var vs := [1, 2, 3, 4];
    AddSequence(ts, vs, now);
    AddAllWithinCapacity([0], 5, vs);
    five := ts.data;
    ts.Add(5, now);
    six := ts.data;
    shift := ts.start - now;
  }

  /** Capacity 5: padding gives five zeros when empty, five 1s after Add(1), and [1, 1, 1, 1, 2] after Add(2). */
  method PaddedScenario(now: int) returns (empty: seq<int>, one: seq<int>, two: seq<int>)
    ensures empty == [0, 0, 0, 0, 0] && one == [1, 1, 1, 1, 1] && two == [1, 1, 1, 1, 2]
  {
    var ts := new TimeSeries(5, Second, now);
    empty := ts.Padded();
    ts.Add(1, now);
    one := ts.Padded();
    ts.Add(2, now);
    two := ts.Padded();
  }

  /** Capacity 2 holding [1, 2], cropped to 1: [2] remains and Start moves a second on. */
  method SetMaxLengthScenario(now: int) returns (data: seq<int>, shift: int)
    ensures data == [2] && shift == Second as int
  {
    var ts := Filled(2, [1, 2], now);
    ts.SetMaxLength(1);
    data := ts.data;
    shift := ts.start - now;
  }

  /** A series of capacity 2 with one subscriber, after Add(1) and Add(2). */
  method SubscribedPair(now: int) returns (ts: TimeSeries, id: int, ch: Channel)
    ensures fresh(ts) && fresh(ch) && ts.Valid()
    ensures id in ts.subscribers && ts.subscribers[id] == ch
    ensures ch.buffer == [1, 2] && ts.data == [1, 2]
  {
    ts := new TimeSeries(2, Second, now);
    id, ch := ts.Subscribe();
    assert ts.subscribers[id] == ch && |ch.buffer| < ChanSize;
    ts.Add(1, now);
    assert ts.subscribers[id] == ch && |ch.buffer| < ChanSize;
    ts.Add(2, now);
  }

  /**
   * A subscriber is sent 1 and 2, then Unsubscribe closes its channel: a
   * reader draining it receives [1, 2], which are also the data.
   */
  method SubscribeScenario(now: int) returns (received: seq<int>, closed: bool, data: seq<int>)
    ensures received == [1, 2] && closed && data == [1, 2]
  {
    var ts, id, ch := SubscribedPair(now);
    ts.Unsubscribe(id);
    received, closed, data := ch.buffer, ch.closed, ts.data;
  }
}
