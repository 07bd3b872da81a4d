/**
 * A naive integer time series: the retained values between a Start and an
 * End time, a maximum length (0 is unbounded), and subscriber channels that
 * receive every added value. Times are nanosecond counts; the current time
 * is passed in as `now`.
 */
module Series {
  import opened SeriesLaws
  import opened Durations

  /** Buffer size of every subscriber channel. */
  const ChanSize: nat := 36

  /** A buffered channel of ints: its queued values, and whether it was closed. */
  class Channel {
    var buffer: seq<int>
    var closed: bool
    const capacity: nat
    /** The subscription id the channel was created for; it keeps registered channels distinct. */
    ghost const key: int

    constructor (capacity: nat, ghost key: int)
      ensures buffer == [] && !closed && this.capacity == capacity && this.key == key
    {
      this.key := key;
      buffer := [];
      closed := false;
      this.capacity := capacity;
    }

    /** A non-blocking send: the caller has checked that there is room. */
    method Send(v: int)
      requires !closed && |buffer| < capacity
      modifies this
      ensures buffer == old(buffer) + [v] && closed == old(closed)
    {
      buffer := buffer + [v];
    }

    /** Closing twice panics, so the channel must be open. */
    method Close()
      requires !closed
      modifies this
      ensures closed && buffer == old(buffer)
    {
      closed := true;
    }
  }

  /** A registered channel: open, of the standard size, and not over-full. */
  ghost predicate Open(ch: Channel)
    reads ch
  {
    !ch.closed && ch.capacity == ChanSize && |ch.buffer| <= ch.capacity
  }

  class TimeSeries {
    var start: int
    var end: int
    var interval: int64
    var data: seq<int>

    var maxLength: nat
    var subscribers: map<int, Channel>
    var currentId: int

    /** Every value ever added, oldest first. */
    ghost var added: seq<int>
    /** The registered channels, the objects that a broadcast may change. */
    ghost var channels: set<Channel>

    /** The invariant of the series: its data and its registry are each consistent. */
    ghost predicate Valid()
      reads this, channels
    {
      DataValid() && RegistryValid()
    }

    /** Bounded data, which are the newest values added. */
    ghost predicate DataValid()
      reads this`data, this`added, this`maxLength
    {
      (maxLength > 0 ==> |data| <= maxLength) && IsSuffix(data, added)
    }

    /**
     * The invariant of the registry: ids below currentId, each registered
     * channel open and bounded, and `channels` exactly the registered ones.
     */
    ghost predicate RegistryValid()
      reads this`currentId, this`subscribers, this`channels, channels
    {
      currentId >= 0 &&
      (forall id :: id in subscribers ==> 0 <= id < currentId) &&
      (forall id :: id in subscribers ==> subscribers[id] in channels && subscribers[id].key == id) &&
      (forall ch :: ch in channels ==> ch.key in subscribers && subscribers[ch.key] == ch && Open(ch))
    }

    /** NewTimeSeries: a negative length panics, so it is excluded. */
    constructor (length: int, interval: int64, now: int)
      requires length >= 0
      ensures Valid()
      ensures data == [] && maxLength == length && this.interval == interval
      ensures start == now && end == now
      ensures subscribers == map[] && currentId == 0
      ensures added == [] && channels == {}
    {
      start, end := now, now;
      this.interval := interval;
      data := [];
      maxLength := length;
      subscribers := map[];
      currentId := 0;
      added, channels := [], {};
    }

    /** Registers a fresh empty channel under the next id. */
    method Subscribe() returns (id: int, ch: Channel)
      requires Valid()
      modifies this`subscribers, this`currentId, this`channels
      ensures Valid()
      ensures fresh(ch) && ch.buffer == [] && !ch.closed && ch.capacity == ChanSize
      ensures id == old(currentId) && currentId == old(currentId) + 1
      ensures forall k :: k in old(subscribers) ==> k < id
      ensures subscribers == old(subscribers)[id := ch]
    {
      ch := new Channel(ChanSize, currentId);
      assert currentId !in subscribers by {
        assert forall k :: k in subscribers ==> k < old(currentId);
      }
      id := currentId;
      subscribers := subscribers[id := ch];
      currentId := currentId + 1;
      channels := channels + {ch};
    }

    /** Closes and forgets the channel registered under `id`, if there is one. */
    method Unsubscribe(id: int)
      requires Valid()
      modifies this`subscribers, this`channels, if id in subscribers then {subscribers[id]} else {}
      ensures Valid()
      ensures id in old(subscribers) ==>
                subscribers == old(subscribers) - {id} &&
                old(subscribers)[id].closed && old(subscribers)[id].buffer == old(subscribers[id].buffer)
      ensures id !in old(subscribers) ==> subscribers == old(subscribers)
    {
      if id in subscribers {
        var ch := subscribers[id];
        ch.Close();
        subscribers := subscribers - {id};
        channels := channels - {ch};
      }
    }

    /**
     * Adds `v`: when full, drop the oldest value and shift Start forward by
     * one Interval; append; stamp End; broadcast.
     */
    method Add(v: int, now: int)
      requires Valid()
      modifies this`data, this`start, this`end, this`added, this`subscribers, this`channels, channels
      ensures Valid()
      ensures data == Appended(old(data), maxLength, v)
      ensures start == old(start) + (if Evicts(|old(data)|, maxLength) then interval as int else 0)
      ensures end == now && added == old(added) + [v]
      ensures subscribers.Keys <= old(subscribers).Keys && channels <= old(channels)
      ensures forall id :: id in old(subscribers) ==>
                if |old(subscribers[id].buffer)| < ChanSize then
                  id in subscribers && subscribers[id] == old(subscribers)[id] &&
                  old(subscribers)[id].buffer == old(subscribers[id].buffer) + [v]
                else
                  id !in subscribers && old(subscribers)[id].buffer == old(subscribers[id].buffer) &&
                  !old(subscribers)[id].closed
    {
      Append(v, now);
      Broadcast(v);
    }

    /** The data half of Add: evict when full, append `v`, stamp End. */
    method Append(v: int, now: int)
      requires DataValid()
      modifies this`data, this`start, this`end, this`added
      ensures DataValid()
      ensures data == Appended(old(data), maxLength, v)
      ensures start == old(start) + (if Evicts(|old(data)|, maxLength) then interval as int else 0)
      ensures end == now && added == old(added) + [v]
    {
      if maxLength > 0 && |data| >= maxLength {
        data := data[1..];
        start := start + interval as int;
      }
      data := data + [v];
      assert data == Appended(old(data), maxLength, v);
      AppendedIsSuffix(old(data), maxLength, v, added);
      added := added + [v];
      end := now;
    }

    /**
     * Sends `v` to every registered channel that has room; a full channel is
     * removed from the registry without being closed. Registered ids are all
     * below currentId, so visiting them in ascending order visits each once.
     */
    method Broadcast(v: int)
      requires RegistryValid()
      modifies this`subscribers, this`channels, channels
      ensures RegistryValid()
      ensures subscribers.Keys <= old(subscribers).Keys && channels <= old(channels)
      ensures forall id :: id in old(subscribers) ==>
                if |old(subscribers[id].buffer)| < ChanSize then
                  id in subscribers && subscribers[id] == old(subscribers)[id] &&
                  old(subscribers)[id].buffer == old(subscribers[id].buffer) + [v]
                else
                  id !in subscribers && old(subscribers)[id].buffer == old(subscribers[id].buffer) &&
                  !old(subscribers)[id].closed
    {
      var i := 0;
      while i < currentId
        invariant 0 <= i <= currentId
        invariant RegistryValid()
        invariant subscribers.Keys <= old(subscribers).Keys && channels <= old(channels)
        invariant forall id :: id in subscribers ==> subscribers[id] == old(subscribers)[id]
        invariant forall id :: id in old(subscribers) && i <= id ==>
                    id in subscribers && old(subscribers)[id].buffer == old(subscribers[id].buffer)
        invariant forall id :: id in old(subscribers) && id < i ==>
                    if |old(subscribers[id].buffer)| < ChanSize then
                      id in subscribers && old(subscribers)[id].buffer == old(subscribers[id].buffer) + [v]
                    else
                      id !in subscribers && old(subscribers)[id].buffer == old(subscribers[id].buffer) &&
                      !old(subscribers)[id].closed
      {
        if i in subscribers {
          Deliver(i, v);
        }
        i := i + 1;
      }
    }

    /** One step of the broadcast: drop the channel under `id` if it is full, else send `v` on it. */
    method Deliver(id: int, v: int)
      requires RegistryValid() && id in subscribers
      modifies this`subscribers, this`channels, subscribers[id]
      ensures RegistryValid()
      ensures |old(subscribers[id].buffer)| == ChanSize ==>
                subscribers == old(subscribers) - {id} &&
                old(subscribers[id]).buffer == old(subscribers[id].buffer) && !old(subscribers[id]).closed
      ensures |old(subscribers[id].buffer)| < ChanSize ==>
                subscribers == old(subscribers) &&
                old(subscribers[id]).buffer == old(subscribers[id].buffer) + [v]
    {
      var ch := subscribers[id];
      if |ch.buffer| == ch.capacity {
        subscribers := subscribers - {id};
        channels := channels - {ch};
      } else {
        ch.Send(v);
      }
    }

    /**
     * Data left-padded with its oldest value (0 when empty) up to the maximum
     * length, or the first maxLength values when there are at least that many.
     */
    method Padded() returns (p: seq<int>)
      ensures |data| >= maxLength ==> p == data[..maxLength]
      ensures |data| < maxLength ==> |p| == maxLength && p[maxLength - |data|..] == data
      ensures |data| < maxLength ==>
                forall i :: 0 <= i < maxLength - |data| ==> p[i] == (if |data| > 0 then data[0] else 0)
    {
      if |data| >= maxLength {
        return data[..maxLength];
      }
      var zero := 0;
      if |data| > 0 {
        zero := data[0];
      }
      var pad := maxLength - |data|;
      var a := new int[maxLength];
      var i := 0;
      while i < pad
        invariant 0 <= i <= pad
        invariant forall k :: 0 <= k < i ==> a[k] == zero
      {
        a[i] := zero;
        i := i + 1;
      }
      var j := 0;
      while j < |data|
        invariant 0 <= j <= |data|
        invariant forall k :: 0 <= k < pad ==> a[k] == zero
        invariant forall k :: 0 <= k < j ==> a[pad + k] == data[k]
      {
        a[pad + j] := data[j];
        j := j + 1;
      }
      p := a[..];
      assert p[pad..] == data;
    }

    /** Crops the oldest values beyond the new maximum length, shifting Start for each. */
    method SetMaxLength(length: int)
      requires Valid()
      requires length >= 0
      modifies this`maxLength, this`data, this`start
      ensures Valid()
      ensures maxLength == length
      ensures data == Newest(old(data), length)
      ensures start == old(start) + (|old(data)| - |data|) * interval as int
    {
      maxLength := length;
      if |data| > maxLength {
        var stripN := |data| - maxLength;
        start := start + stripN * interval as int;
        data := data[stripN..];
        assert |old(data)| - |data| == stripN;
      }
      assert data == Newest(old(data), length);
      SuffixTransitive(data, old(data), added);
    }

    /** Re-anchors Start so that the data end at `now`, one Interval apart. */
    method ResetStartTime(now: int)
      modifies this`start
      ensures start == now - |data| * interval as int
    {
      start := now - |data| * interval as int;
    }
  }
}
