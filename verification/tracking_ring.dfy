/** The tracking-event store: a ring of compressed records beside a sparse map of extra fields. */
module TrackingRing {

  datatype TrackingEvent = TrackingEvent(auctionID: string, bidID: string, bidder: string, placementID: string,
                                         event: string, crID: string, price: real, aDomain: string, receivedAt: int)

  datatype EventCode =
    | Custom | Impression | Start | FirstQuartile | Midpoint | ThirdQuartile | Complete | Click

  /** A ring slot; sequence number 0 marks one that was never written. */
  datatype Record = Record(seqNo: int, auctionID: string, bidID: string, bidder: string, placementID: string,
                           event: EventCode, price: real, receivedAtUnixNs: int)

  datatype Extras = Extras(crID: string, aDomain: string, customEvent: string)

  function CodeFromEventType(event: string): (EventCode, string) {
    if event == "impression" then (Impression, "")
    else if event == "start" then (Start, "")
    else if event == "firstQuartile" then (FirstQuartile, "")
    else if event == "midpoint" then (Midpoint, "")
    else if event == "thirdQuartile" then (ThirdQuartile, "")
    else if event == "complete" then (Complete, "")
    else if event == "click" then (Click, "")
    else (Custom, event)
  }

  function EventType(code: EventCode): string {
    match code
    case Impression => "impression"
    case Start => "start"
    case FirstQuartile => "firstQuartile"
    case Midpoint => "midpoint"
    case ThirdQuartile => "thirdQuartile"
    case Complete => "complete"
    case Click => "click"
    case Custom => ""
  }

  function Compress(ev: TrackingEvent, seqNo: int): (r: Record)
    ensures r.seqNo == seqNo
  {
    Record(seqNo, ev.auctionID, ev.bidID, ev.bidder, ev.placementID, CodeFromEventType(ev.event).0, ev.price, ev.receivedAt)
  }

  function ExtrasOf(ev: TrackingEvent): Extras {
    Extras(ev.crID, ev.aDomain, CodeFromEventType(ev.event).1)
  }

  predicate NeedsExtras(ev: TrackingEvent) {
    ev.crID != "" || ev.aDomain != "" || CodeFromEventType(ev.event).1 != ""
  }

  function Expand(rec: Record, extras: map<int, Extras>): TrackingEvent {
    var ev := TrackingEvent(rec.auctionID, rec.bidID, rec.bidder, rec.placementID, EventType(rec.event),
                            "", rec.price, "", rec.receivedAtUnixNs);
    if rec.seqNo == 0 || rec.seqNo !in extras then ev
    else
      var x := extras[rec.seqNo];
      ev.(crID := x.crID, aDomain := x.aDomain, event := if x.customEvent != "" then x.customEvent else ev.event)
  }

  /** Compression loses nothing as long as the extra fields are filed under the record's number. */
  lemma ExpandCompress(ev: TrackingEvent, seqNo: int, extras: map<int, Extras>)
    requires seqNo != 0
    requires seqNo in extras <==> NeedsExtras(ev)
    requires seqNo in extras ==> extras[seqNo] == ExtrasOf(ev)
    ensures Expand(Compress(ev, seqNo), extras) == ev
  {
  }

  /** The last `n` events of a history. */
  function Last(history: seq<TrackingEvent>, n: nat): (r: seq<TrackingEvent>)
    ensures |r| == if n < |history| then n else |history|
    ensures r == history[|history| - |r|..]
  {
    if |history| <= n then history else history[|history| - n..]
  }

  // ---- what ring and map hold, given the history so far

  /** Index into the history of what slot `i` holds; negative when it holds nothing yet. */
  function Held(i: int, count: int, pos: int, capacity: int): int {
    count - pos + i - if i < pos then 0 else capacity
  }

  ghost predicate SlotHolds(rec: Record, h: seq<TrackingEvent>, k: int) {
    if 0 <= k < |h| then rec == Compress(h[k], k + 1) else rec.seqNo == 0
  }

  ghost predicate RingHolds(ring: seq<Record>, h: seq<TrackingEvent>, pos: int) {
    && 0 <= pos < |ring|
    && forall i :: 0 <= i < |ring| ==> SlotHolds(ring[i], h, Held(i, |h|, pos, |ring|))
  }

  /** The extra fields belong to live records, and to every live record that needs them. */
  ghost predicate ExtrasFit(extras: map<int, Extras>, h: seq<TrackingEvent>, capacity: nat) {
    && (forall s :: s in extras <==> 0 < s <= |h| && |h| - capacity < s && NeedsExtras(h[s - 1]))
    && (forall s :: s in extras ==> extras[s] == ExtrasOf(h[s - 1]))
  }

  lemma RingStep(ring: seq<Record>, h: seq<TrackingEvent>, pos: int, ev: TrackingEvent)
    requires RingHolds(ring, h, pos) && pos <= |h|
    ensures RingHolds(ring[pos := Compress(ev, |h| + 1)], h + [ev], if pos + 1 == |ring| then 0 else pos + 1)
  {
    hide Compress;
    var ring', h', pos' := ring[pos := Compress(ev, |h| + 1)], h + [ev], if pos + 1 == |ring| then 0 else pos + 1;
    forall i | 0 <= i < |ring|
      ensures SlotHolds(ring'[i], h', Held(i, |h'|, pos', |ring|))
    {
      var k := Held(i, |h|, pos, |ring|);
      assert Held(i, |h'|, pos', |ring|) == if i == pos then |h| else k;
    }
  }

  lemma ExtrasStep(extras: map<int, Extras>, h: seq<TrackingEvent>, capacity: nat, ev: TrackingEvent)
    requires ExtrasFit(extras, h, capacity) && capacity > 0
    ensures var rest := extras - {|h| + 1 - capacity};
            var extras' := if NeedsExtras(ev) then rest[|h| + 1 := ExtrasOf(ev)] else rest;
            ExtrasFit(extras', h + [ev], capacity)
  {
    hide NeedsExtras, ExtrasOf;
  }

  class TrackingStore {
    const capacity: nat
    var ring: array?<Record>
    var extras: map<int, Extras>
    var pos: nat
    var full: bool
    var count: nat
    ghost var history: seq<TrackingEvent>

    ghost predicate Valid()
      reads this, ring
    {
      && capacity > 0 && count == |history| && pos < capacity
      && (if full then count >= pos + capacity else count == pos)
      && (ring == null ==> count == 0)
      && (ring != null ==> ring.Length == capacity && RingHolds(ring[..], history, pos))
      && ExtrasFit(extras, history, capacity)
    }

    constructor (capacity: nat)
      requires capacity > 0
      ensures Valid() && history == [] && this.capacity == capacity
    {
      this.capacity := capacity;
      ring, extras, pos, full, count, history := null, map[], 0, false, 0, [];
    }

    /** Allocates the ring on first use. */
    method EnsureRing()
      requires Valid()
      modifies this`ring
      ensures Valid() && ring != null
      ensures old(ring) == null ==> fresh(ring)
      ensures old(ring) != null ==> ring == old(ring) && ring[..] == old(ring[..])
    {
      hide ExtrasFit;
      if ring == null {
        ring := new Record[capacity](_ => Record(0, "", "", "", "", Custom, 0.0, 0));
      }
    }

    method RecordEvent(ev: TrackingEvent)
      requires Valid()
      modifies this, ring
      ensures Valid() && history == old(history) + [ev]
      ensures ring != old(ring) ==> fresh(ring)
    {
      hide NeedsExtras, ExtrasOf, ExtrasFit, RingHolds, Compress;
      EnsureRing();
      ghost var slots := ring[..];
      RingStep(slots, history, pos, ev);
      ExtrasStep(extras, history, capacity, ev);
      EvictedSlot(slots, extras, history, pos);
      count := count + 1;
      var oldSeq := ring[pos].seqNo;
      if oldSeq != 0 {
        extras := extras - {oldSeq};
      }
      ring[pos] := Compress(ev, count);
      assert ring[..] == slots[pos := Compress(ev, count)];
      if NeedsExtras(ev) {
        extras := extras[count := ExtrasOf(ev)];
      }
      history := history + [ev];
      pos := pos + 1;
      if pos >= capacity {
        pos := 0;
        full := true;
      }
    }

    lemma ExpandSlot(i: int)
      requires Valid() && ring != null && 0 <= i < capacity && 0 <= Held(i, count, pos, capacity)
      ensures Held(i, count, pos, capacity) < count
      ensures Expand(ring[i], extras) == history[Held(i, count, pos, capacity)]
    {
      hide Compress, NeedsExtras, ExtrasOf, Expand;
      var k := Held(i, count, pos, capacity);
      assert SlotHolds(ring[..][i], history, k);
      ExpandCompress(history[k], k + 1, extras);
    }

    /** The events held by the slots from `lo` to `hi`, all on the same side of the write position. */
    method ExpandRange(lo: nat, hi: nat) returns (events: seq<TrackingEvent>)
      requires Valid() && ring != null && lo <= hi <= capacity && (hi <= pos || pos <= lo)
      requires lo < hi ==> 0 <= Held(lo, count, pos, capacity)
      ensures |events| == hi - lo
      ensures lo < hi ==> Held(hi - 1, count, pos, capacity) < count
      ensures forall j :: 0 <= j < |events| ==> events[j] == history[Held(lo, count, pos, capacity) + j]
    {
      hide Expand, ExtrasFit, RingHolds;
      events := [];
      for i := lo to hi
        invariant |events| == i - lo
        invariant lo < i ==> Held(i - 1, count, pos, capacity) < count
        invariant forall j :: 0 <= j < |events| ==> events[j] == history[Held(lo, count, pos, capacity) + j]
      {
        ExpandSlot(i);
        events := events + [Expand(ring[i], extras)];
      }
    }

    /** `all`: the retained events, oldest first, exactly as they were recorded. */
    method All() returns (events: seq<TrackingEvent>)
      requires Valid()
      ensures events == Last(history, capacity)
    {
      hide ExtrasFit, RingHolds;
      if ring == null {
        return [];
      }
      var older := [];
      if full {
        older := ExpandRange(pos, capacity);
      }
      var newer := ExpandRange(0, pos);
      events := older + newer;
    }
  }

  /** The slot about to be overwritten holds the oldest live number, or none and none has extras. */
  lemma EvictedSlot(ring: seq<Record>, extras: map<int, Extras>, h: seq<TrackingEvent>, pos: int)
    requires RingHolds(ring, h, pos) && ExtrasFit(extras, h, |ring|)
    ensures ring[pos].seqNo != 0 ==> ring[pos].seqNo == |h| + 1 - |ring|
    ensures ring[pos].seqNo == 0 ==> extras - {|h| + 1 - |ring|} == extras
  {
    hide NeedsExtras, ExtrasOf;
    assert SlotHolds(ring[pos], h, Held(pos, |h|, pos, |ring|));
  }
}
