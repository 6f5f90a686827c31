/**
 * Impression beacons, the billing notices they release and the sweeper, interleaving step by step.
 * Times are whole seconds of one clock; every handler reads it once, when it starts.
 */
module Beacons {
  import opened Deduper

  /** Ten minutes: how long an impression stays in the deduper before a sweep may drop it. */
  const DEDUP_WINDOW := 600
  /** Five minutes: how long a stored billing notice may be fired. */
  const BURL_TTL := 300

  type Key = ImpressionKey

  /** A beacon handler that has read the clock, or one whose impression counted as number `no`. */
  datatype Handler = Captured(key: Key, at: int) | Counted(key: Key, at: int, no: nat)

  datatype Count = Count(key: Key, captured: int, added: int)

  /** A stored billing notice; `entry` numbers the stores. */
  datatype Pending = Pending(url: string, expires: int, entry: nat)

  /** A fired billing notice, the counted impression `no` that released it and when it was fired. */
  datatype Bill = Bill(key: Key, pending: Pending, at: int, no: nat, fired: int)

  datatype State = State(
    clock: int,
    seen: Seen,
    cutoffs: set<int>,
    handlers: map<nat, Handler>,
    counted: seq<Count>,
    pending: map<Key, Pending>,
    condemned: map<Key, nat>, // keys the sweeper found expired, and the notice it found there
    stored: nat,
    billed: seq<Bill>,
    lost: set<nat>)

  datatype Action =
    | Tick(seconds: nat)
    | Arrive(h: nat, key: Key)         // handler h reads the clock
    | Dedup(h: nat)                    // SeenOrAdd
    | Release(h: nat)                  // LoadAndDelete and, unless expired, fire
    | Store(key: Key, url: string)     // ORTB handler caches a BURL
    | BeginSweep                       // sweeper reads the clock
    | SweepSeen(cutoff: int, key: Key) // deduper cleanup meets an old entry
    | Condemn(key: Key)                // sweeper finds an expired BURL ...
    | Drop(key: Key)                   // ... and deletes whatever is under its key by then

  function Discard(s: State, key: Key): State {
    if key in s.pending then s.(pending := s.pending - {key}, lost := s.lost + {s.pending[key].entry}) else s
  }

  /** The effect of an action; one that is not possible has none. */
  function Next(s: State, a: Action): State {
    match a
    case Tick(d) => s.(clock := s.clock + d)
    case Arrive(h, key) => if h in s.handlers then s else s.(handlers := s.handlers[h := Captured(key, s.clock)])
    case Dedup(h) =>
      if h !in s.handlers || !s.handlers[h].Captured? then s
      else
        var key, at := s.handlers[h].key, s.handlers[h].at;
        if key in s.seen then s.(handlers := s.handlers - {h})
        else s.(seen := s.seen[key := at],
                counted := s.counted + [Count(key, at, s.clock)],
                handlers := s.handlers[h := Counted(key, at, |s.counted|)])
    case Release(h) =>
      if h !in s.handlers || !s.handlers[h].Counted? then s
      else
        var hd := s.handlers[h];
        var s' := s.(handlers := s.handlers - {h});
        if hd.key in s.pending && hd.at < s.pending[hd.key].expires
        then s'.(pending := s.pending - {hd.key}, billed := s.billed + [Bill(hd.key, s.pending[hd.key], hd.at, hd.no, s.clock)])
        else Discard(s', hd.key)
    case Store(key, url) =>
      var s' := Discard(s, key);
      s'.(pending := s'.pending[key := Pending(url, s.clock + BURL_TTL, s.stored)], stored := s.stored + 1)
    case BeginSweep => s.(cutoffs := s.cutoffs + {s.clock - DEDUP_WINDOW})
    case SweepSeen(cutoff, key) =>
      if cutoff in s.cutoffs && key in s.seen && s.seen[key] < cutoff then s.(seen := s.seen - {key}) else s
    case Condemn(key) =>
      if key in s.pending && s.clock > s.pending[key].expires then s.(condemned := s.condemned[key := s.pending[key].entry]) else s
    case Drop(key) => if key in s.condemned then Discard(s.(condemned := s.condemned - {key}), key) else s
  }

  function Init(clock: int): State {
    State(clock, map[], {}, map[], [], map[], map[], 0, [], {})
  }

  function Run(s: State, actions: seq<Action>): State {
    if actions == [] then s else Next(Run(s, actions[..|actions| - 1]), actions[|actions| - 1])
  }

  // ---- counting

  /** Each counted impression is out of the window by now, or still what the deduper remembers. */
  ghost predicate Remembered(s: State) {
    && (forall c :: c in s.cutoffs ==> c + DEDUP_WINDOW <= s.clock)
    && (forall i :: 0 <= i < |s.counted| ==>
          var c := s.counted[i];
          s.clock > c.captured + DEDUP_WINDOW || (c.key in s.seen && s.seen[c.key] == c.captured))
  }

  /** Of two counts of one key, the later was added more than the window after the earlier's beacon. */
  ghost predicate Spaced(counted: seq<Count>) {
    forall i, j :: 0 <= i < j < |counted| && counted[i].key == counted[j].key ==>
      counted[j].added > counted[i].captured + DEDUP_WINDOW
  }

  lemma NextSpaced(s: State, a: Action)
    requires Remembered(s) && Spaced(s.counted)
    ensures Remembered(Next(s, a)) && Spaced(Next(s, a).counted)
  {
  }

  /** Counts are added in clock order, each at or after its beacon read the clock. */
  ghost predicate Ordered(s: State) {
    && (forall h :: h in s.handlers ==> s.handlers[h].at <= s.clock)
    && (forall i :: 0 <= i < |s.counted| ==> s.counted[i].captured <= s.counted[i].added <= s.clock)
    && (forall i, j :: 0 <= i < j < |s.counted| ==> s.counted[i].added <= s.counted[j].added)
    && (forall i :: 0 <= i < |s.billed| ==> s.billed[i].at <= s.billed[i].fired <= s.clock)
  }

  lemma NextOrdered(s: State, a: Action)
    requires Ordered(s)
    ensures Ordered(Next(s, a))
  {
  }

  // ---- billing

  /** Handlers past the deduper stand for different counted impressions, their own. */
  ghost predicate HandlersFit(handlers: map<nat, Handler>, counted: seq<Count>) {
    && (forall h :: h in handlers && handlers[h].Counted? ==>
          var hd := handlers[h];
          hd.no < |counted| && counted[hd.no].key == hd.key && counted[hd.no].captured == hd.at)
    && (forall h, g :: h in handlers && g in handlers && h != g && handlers[h].Counted? && handlers[g].Counted? ==>
          handlers[h].no != handlers[g].no)
  }

  lemma HandlersRemove(handlers: map<nat, Handler>, counted: seq<Count>, h: nat)
    requires HandlersFit(handlers, counted)
    ensures HandlersFit(handlers - {h}, counted)
  {
  }

  lemma HandlersArrive(handlers: map<nat, Handler>, counted: seq<Count>, h: nat, key: Key, at: int)
    requires HandlersFit(handlers, counted)
    ensures HandlersFit(handlers[h := Captured(key, at)], counted)
  {
  }

  lemma HandlersCount(handlers: map<nat, Handler>, counted: seq<Count>, h: nat, c: Count)
    requires HandlersFit(handlers, counted)
    ensures HandlersFit(handlers[h := Counted(c.key, c.captured, |counted|)], counted + [c])
  {
  }

  lemma NextHandlersFit(s: State, a: Action)
    requires HandlersFit(s.handlers, s.counted)
    ensures HandlersFit(Next(s, a).handlers, Next(s, a).counted)
  {
    hide HandlersFit;
    match a {
      case Arrive(h, key) => HandlersArrive(s.handlers, s.counted, h, key, s.clock);
      case Dedup(h) =>
        HandlersRemove(s.handlers, s.counted, h);
        if h in s.handlers {
          HandlersCount(s.handlers, s.counted, h, Count(s.handlers[h].key, s.handlers[h].at, s.clock));
        }
      case Release(h) => HandlersRemove(s.handlers, s.counted, h);
      case _ =>
    }
  }

  /** A bill came in time and from a counted impression of its key, one that releases nothing else. */
  ghost predicate BillsFit(billed: seq<Bill>, handlers: map<nat, Handler>, counted: seq<Count>) {
    && (forall i :: 0 <= i < |billed| ==>
          var b := billed[i];
          && b.at < b.pending.expires
          && b.no < |counted| && counted[b.no].key == b.key && counted[b.no].captured == b.at)
    && (forall i, j :: 0 <= i < j < |billed| ==> billed[i].no != billed[j].no)
    && (forall i, h :: 0 <= i < |billed| && h in handlers && handlers[h].Counted? ==> billed[i].no != handlers[h].no)
  }

  lemma BillsRemove(billed: seq<Bill>, handlers: map<nat, Handler>, counted: seq<Count>, h: nat)
    requires BillsFit(billed, handlers, counted)
    ensures BillsFit(billed, handlers - {h}, counted)
  {
  }

  lemma BillsArrive(billed: seq<Bill>, handlers: map<nat, Handler>, counted: seq<Count>, h: nat, key: Key, at: int)
    requires BillsFit(billed, handlers, counted)
    ensures BillsFit(billed, handlers[h := Captured(key, at)], counted)
  {
  }

  lemma BillsCount(billed: seq<Bill>, handlers: map<nat, Handler>, counted: seq<Count>, h: nat, c: Count)
    requires BillsFit(billed, handlers, counted)
    ensures BillsFit(billed, handlers[h := Counted(c.key, c.captured, |counted|)], counted + [c])
  {
  }

  lemma BillsFire(billed: seq<Bill>, handlers: map<nat, Handler>, counted: seq<Count>, h: nat, p: Pending, now: int)
    requires HandlersFit(handlers, counted) && BillsFit(billed, handlers, counted)
    requires h in handlers && handlers[h].Counted? && handlers[h].at < p.expires
    ensures BillsFit(billed + [Bill(handlers[h].key, p, handlers[h].at, handlers[h].no, now)], handlers - {h}, counted)
  {
  }

  lemma NextBillsFit(s: State, a: Action)
    requires HandlersFit(s.handlers, s.counted) && BillsFit(s.billed, s.handlers, s.counted)
    ensures BillsFit(Next(s, a).billed, Next(s, a).handlers, Next(s, a).counted)
  {
    hide HandlersFit, BillsFit;
    match a {
      case Arrive(h, key) => BillsArrive(s.billed, s.handlers, s.counted, h, key, s.clock);
      case Dedup(h) =>
        BillsRemove(s.billed, s.handlers, s.counted, h);
        if h in s.handlers {
          BillsCount(s.billed, s.handlers, s.counted, h, Count(s.handlers[h].key, s.handlers[h].at, s.clock));
        }
      case Release(h) =>
        BillsRemove(s.billed, s.handlers, s.counted, h);
        if h in s.handlers && s.handlers[h].Counted? {
          var hd := s.handlers[h];
          if hd.key in s.pending && hd.at < s.pending[hd.key].expires {
            BillsFire(s.billed, s.handlers, s.counted, h, s.pending[hd.key], s.clock);
          }
        }
      case _ =>
    }
  }

  // ---- every stored notice is accounted for

  ghost predicate IsPending(s: State, e: nat) {
    exists k :: k in s.pending && s.pending[k].entry == e
  }

  ghost predicate IsBilled(s: State, e: nat) {
    exists i :: 0 <= i < |s.billed| && s.billed[i].pending.entry == e
  }

  /** Numbers are given once, and each number is pending, billed or lost, and only one of these. */
  ghost predicate Partitioned(s: State) {
    && (forall k, l :: k in s.pending && l in s.pending && k != l ==> s.pending[k].entry != s.pending[l].entry)
    && (forall i, j :: 0 <= i < j < |s.billed| ==> s.billed[i].pending.entry != s.billed[j].pending.entry)
    && (forall e: nat :: e < s.stored <==> IsPending(s, e) || IsBilled(s, e) || e in s.lost)
    && (forall e: nat :: !(IsPending(s, e) && IsBilled(s, e)) && !(e in s.lost && (IsPending(s, e) || IsBilled(s, e))))
  }

  lemma RemovePending(s: State, s': State, key: Key)
    requires Partitioned(s) && key in s.pending && s'.pending == s.pending - {key}
    ensures forall e: nat :: IsPending(s', e) <==> IsPending(s, e) && e != s.pending[key].entry
  {
    forall e: nat
      ensures IsPending(s', e) <==> IsPending(s, e) && e != s.pending[key].entry
    {
      if IsPending(s, e) && e != s.pending[key].entry {
        var k :| k in s.pending && s.pending[k].entry == e;
        assert k in s'.pending && s'.pending[k].entry == e;
      }
    }
  }

  lemma DiscardPartitioned(s: State, key: Key)
    requires Partitioned(s)
    ensures Partitioned(Discard(s, key))
  {
    hide IsPending, IsBilled;
    var s' := Discard(s, key);
    if key in s.pending {
      var gone := s.pending[key].entry;
      RemovePending(s, s', key);
      SameBills(s, s');
      PendingWitness(s, key);
    }
  }

  lemma PendingWitness(s: State, key: Key)
    requires key in s.pending
    ensures IsPending(s, s.pending[key].entry)
  {
  }

  lemma SameBills(s: State, s': State)
    requires s'.billed == s.billed
    ensures forall e: nat :: IsBilled(s', e) <==> IsBilled(s, e)
  {
  }

  /** A release that fires moves one number from pending to billed. */
  lemma BillPartitioned(s: State, s': State, key: Key, b: Bill)
    requires Partitioned(s) && key in s.pending && b.pending == s.pending[key]
    requires s' == s.(handlers := s'.handlers, pending := s.pending - {key}, billed := s.billed + [b])
    ensures Partitioned(s')
  {
    var e0 := b.pending.entry;
    RemovePending(s, s', key);
    PendingWitness(s, key);
    forall e: nat
      ensures IsBilled(s', e) <==> IsBilled(s, e) || e == e0
    {
      if IsBilled(s, e) {
        var i :| 0 <= i < |s.billed| && s.billed[i].pending.entry == e;
        assert s'.billed[i] == s.billed[i];
      }
      if e == e0 {
        assert s'.billed[|s.billed|] == b;
      }
    }
    forall i, j | 0 <= i < j < |s'.billed|
      ensures s'.billed[i].pending.entry != s'.billed[j].pending.entry
    {
      if j == |s.billed| {
        assert IsBilled(s, s.billed[i].pending.entry);
      }
    }
  }

  lemma StorePartitioned(s: State, s': State, key: Key, p: Pending)
    requires Partitioned(s) && key !in s.pending && p.entry == s.stored
    requires s' == s.(pending := s.pending[key := p], stored := s.stored + 1)
    ensures Partitioned(s')
  {
    SameBills(s, s');
    forall e: nat
      ensures IsPending(s', e) <==> IsPending(s, e) || e == s.stored
    {
      if IsPending(s, e) {
        var k :| k in s.pending && s.pending[k].entry == e;
        assert k in s'.pending && s'.pending[k].entry == e;
      }
      if e == s.stored {
        assert s'.pending[key].entry == e;
      }
    }
    forall k | k in s.pending
      ensures s.pending[k].entry != s.stored
    {
      PendingWitness(s, k);
    }
  }

  lemma SamePartitioned(s: State, s': State)
    requires Partitioned(s) && s'.pending == s.pending && s'.billed == s.billed
    requires s'.lost == s.lost && s'.stored == s.stored
    ensures Partitioned(s')
  {
    assert forall e: nat :: IsPending(s', e) <==> IsPending(s, e);
    SameBills(s, s');
  }

  lemma NextPartitioned(s: State, a: Action)
    requires Partitioned(s)
    ensures Partitioned(Next(s, a))
  {
    hide Partitioned;
    match a {
      case Release(h) =>
        if h in s.handlers && s.handlers[h].Counted? {
          var hd := s.handlers[h];
          var s' := s.(handlers := s.handlers - {h});
          SamePartitioned(s, s');
          if hd.key in s.pending && hd.at < s.pending[hd.key].expires {
            BillPartitioned(s', Next(s, a), hd.key, Bill(hd.key, s.pending[hd.key], hd.at, hd.no, s.clock));
          } else {
            DiscardPartitioned(s', hd.key);
          }
        }
      case Store(key, url) =>
        DiscardPartitioned(s, key);
        var s' := Discard(s, key);
        StorePartitioned(s', Next(s, a), key, Pending(url, s.clock + BURL_TTL, s.stored));
      case Drop(key) =>
        if key in s.condemned {
          var s' := s.(condemned := s.condemned - {key});
          SamePartitioned(s, s');
          DiscardPartitioned(s', key);
        }
      case _ =>
        SamePartitioned(s, Next(s, a));
    }
  }

  // ---- every run

  ghost predicate Inv(s: State) {
    && Remembered(s) && Spaced(s.counted) && Ordered(s) && Partitioned(s)
    && HandlersFit(s.handlers, s.counted) && BillsFit(s.billed, s.handlers, s.counted)
  }

  lemma InitInv(clock: int)
    ensures Inv(Init(clock))
  {
  }

  lemma {:induction false} RunInv(clock: int, actions: seq<Action>)
    ensures Inv(Run(Init(clock), actions))
  {
    hide Remembered, Spaced, Ordered, HandlersFit, BillsFit, Partitioned;
    if actions == [] {
      InitInv(clock);
    } else {
      var s, a := Run(Init(clock), actions[..|actions| - 1]), actions[|actions| - 1];
      RunInv(clock, actions[..|actions| - 1]);
      NextSpaced(s, a);
      NextOrdered(s, a);
      NextHandlersFit(s, a);
      NextBillsFit(s, a);
      NextPartitioned(s, a);
    }
  }

  /** No impression is counted again until more than the window after the beacon that counted. */
  lemma CountsAreSpaced(clock: int, actions: seq<Action>, i: nat, j: nat)
    requires var counted := Run(Init(clock), actions).counted;
             i < j < |counted| && counted[i].key == counted[j].key
    ensures var counted := Run(Init(clock), actions).counted;
            counted[j].added > counted[i].captured + DEDUP_WINDOW
  {
    RunInv(clock, actions);
  }

  /**
   * A billing notice is released only by an impression whose handler read the clock before its
   * expiry; it is then gone from the table.
   */
  lemma BillIsSound(clock: int, actions: seq<Action>, i: nat)
    requires i < |Run(Init(clock), actions).billed|
    ensures var s := Run(Init(clock), actions);
            var b := s.billed[i];
            && b.at < b.pending.expires && b.at <= b.fired
            && b.pending.entry < s.stored && !IsPending(s, b.pending.entry) && b.pending.entry !in s.lost
            && b.no < |s.counted| && s.counted[b.no].key == b.key && s.counted[b.no].captured == b.at
  {
    RunInv(clock, actions);
    assert IsBilled(Run(Init(clock), actions), Run(Init(clock), actions).billed[i].pending.entry);
  }

  /** No stored notice fires twice; two of one key are released by two impressions, a window after the earlier beacon. */
  lemma BillsAreSpaced(clock: int, actions: seq<Action>, i: nat, j: nat)
    requires i < |Run(Init(clock), actions).billed| && j < |Run(Init(clock), actions).billed| && i != j
    ensures var s := Run(Init(clock), actions);
            var b, c := s.billed[i], s.billed[j];
            && b.pending.entry != c.pending.entry && b.no != c.no && c.no < |s.counted|
            && (b.key == c.key && b.no < c.no ==> s.counted[c.no].added > b.at + DEDUP_WINDOW)
  {
    RunInv(clock, actions);
  }

  // ---- how late a billing notice fires

  /** No handler takes longer than `d` from reading the clock to firing. */
  ghost predicate ReleasedWithin(billed: seq<Bill>, d: nat) {
    forall i :: 0 <= i < |billed| ==> billed[i].fired - billed[i].at <= d
  }

  /** Every notice fires at most `w` seconds after its expiry. */
  ghost predicate NotLaterThan(billed: seq<Bill>, w: int) {
    forall i :: 0 <= i < |billed| ==> billed[i].fired <= billed[i].pending.expires + w
  }

  /** A handler that reads the clock just in time and then stalls for `d` seconds fires `d - 1` seconds late. */
  lemma StalledHandlerFiresLate(d: nat) returns (actions: seq<Action>)
    ensures var billed := Run(Init(0), actions).billed;
            |billed| == 1 && ReleasedWithin(billed, d) && billed[0].fired == billed[0].pending.expires - 1 + d
  {
    hide Run;
    var k := ImpressionKey("a", "b");
    var s := Init(0);
    actions := [];
    RunNothing(s);
    s, actions := Then(s, actions, Store(k, "u"));
    s, actions := Then(s, actions, Tick(BURL_TTL - 1));
    s, actions := Then(s, actions, Arrive(1, k));
    s, actions := Then(s, actions, Dedup(1));
    assert s.handlers == map[1 := Counted(k, BURL_TTL - 1, 0)];
    s, actions := Then(s, actions, Tick(d));
    s, actions := Then(s, actions, Release(1));
  }

  /**
   * Exactly how the expiry is kept: in all runs whose handlers take at most `d` seconds to release,
   * every notice fires at most `w` seconds after its expiry if and only if `w` is at least `d - 1`.
   */
  lemma LatenessExactly(d: nat, w: int)
    ensures (forall clock, actions :: ReleasedWithin(Run(Init(clock), actions).billed, d) ==>
               NotLaterThan(Run(Init(clock), actions).billed, w))
            <==> d - 1 <= w
  {
    hide Run;
    if d - 1 <= w {
      forall clock, actions | ReleasedWithin(Run(Init(clock), actions).billed, d)
        ensures NotLaterThan(Run(Init(clock), actions).billed, w)
      {
        RunInv(clock, actions);
      }
    } else {
      var actions := StalledHandlerFiresLate(d);
    }
  }

  /** Before its expiry: if and only if no handler stalls at all. */
  lemma ExpiryExactly(d: nat)
    ensures (forall clock, actions :: ReleasedWithin(Run(Init(clock), actions).billed, d) ==>
               NotLaterThan(Run(Init(clock), actions).billed, -1))
            <==> d == 0
  {
    LatenessExactly(d, -1);
  }

  /** Left alone, a notice is fired by an impression `d` seconds later if and only if that is within 300 seconds. */
  lemma FiredWithinFiveMinutes(k: Key, url: string, d: nat) returns (actions: seq<Action>)
    ensures var s := Run(Init(0), actions);
            && |s.counted| == 1 && s.counted[0] == Count(k, d, d) && s.pending == map[]
            && (|s.billed| == 1 <==> d < 300) && (|s.billed| == 0 <==> d >= 300)
            && (d < 300 ==> s.billed[0].key == k && s.billed[0].pending.url == url && s.billed[0].fired == d)
  {
    hide Run;
    var s := Init(0);
    actions := [];
    RunNothing(s);
    s, actions := Then(s, actions, Store(k, url));
    s, actions := Then(s, actions, Tick(d));
    s, actions := Then(s, actions, Arrive(1, k));
    s, actions := Then(s, actions, Dedup(1));
    assert s.handlers == map[1 := Counted(k, d, 0)] && s.pending == map[k := Pending(url, 300, 0)];
    s, actions := Then(s, actions, Release(1));
    assert map[k := Pending(url, 300, 0)] - {k} == map[];
  }

  // ---- when a notice is lost before its expiry

  /** A condemned notice that is still there has expired. */
  ghost predicate CondemnedExpired(s: State) {
    forall k :: k in s.condemned && k in s.pending && s.pending[k].entry == s.condemned[k] ==> s.clock > s.pending[k].expires
  }

  /** Numbers of condemned notices have been given. */
  ghost predicate CondemnedStored(s: State) {
    && (forall k :: k in s.condemned ==> s.condemned[k] < s.stored)
    && (forall k :: k in s.pending ==> s.pending[k].entry < s.stored)
  }

  lemma NextCondemned(s: State, a: Action)
    requires CondemnedExpired(s) && CondemnedStored(s)
    ensures CondemnedExpired(Next(s, a)) && CondemnedStored(Next(s, a))
  {
  }

  lemma {:induction false} RunCondemned(clock: int, actions: seq<Action>)
    ensures CondemnedExpired(Run(Init(clock), actions)) && CondemnedStored(Run(Init(clock), actions))
  {
    hide Next, CondemnedExpired, CondemnedStored;
    if actions == [] {
      InitCondemned(clock);
    } else {
      RunCondemned(clock, actions[..|actions| - 1]);
      NextCondemned(Run(Init(clock), actions[..|actions| - 1]), actions[|actions| - 1]);
    }
  }

  lemma InitCondemned(clock: int)
    ensures CondemnedExpired(Init(clock)) && CondemnedStored(Init(clock))
  {
  }

  /**
   * In every run, a step takes away a pending notice that has not expired, without firing it, if and
   * only if it stores another one under its key, or it is the sweeper deleting what it condemned
   * under the key, which was an earlier notice.
   */
  lemma LostUnexpiredExactly(clock: int, actions: seq<Action>, a: Action, k: Key)
    requires var s := Run(Init(clock), actions);
             k in s.pending && s.clock < s.pending[k].expires
    ensures var s := Run(Init(clock), actions);
            var e := s.pending[k].entry;
            (e in Next(s, a).lost <==> (a.Store? && a.key == k) || (a.Drop? && a.key == k && k in s.condemned))
            && (k in s.condemned ==> s.condemned[k] != e)
  {
    hide Run;
    var s := Run(Init(clock), actions);
    RunInv(clock, actions);
    RunCondemned(clock, actions);
    assert IsPending(s, s.pending[k].entry);
    if a.Release? || a.Store? || a.Drop? {
      var l := if a.Release? then (if a.h in s.handlers then s.handlers[a.h].key else k) else a.key;
      assert l in s.pending && l != k ==> s.pending[l].entry != s.pending[k].entry;
    }
  }

  /** It happens: the sweeper condemns an expired notice, a new one is stored, and that one is deleted. */
  lemma SweeperDropsFresh() returns (actions: seq<Action>)
    ensures var s := Run(Init(0), actions);
            s.stored == 2 && 1 in s.lost && s.clock == BURL_TTL + 1 && s.billed == []
  {
    hide Run;
    var k := ImpressionKey("a", "b");
    var s := Init(0);
    actions := [];
    RunNothing(s);
    s, actions := Then(s, actions, Store(k, "u"));
    s, actions := Then(s, actions, Tick(BURL_TTL + 1));
    s, actions := Then(s, actions, Condemn(k));
    s, actions := Then(s, actions, Store(k, "u"));
    assert s.pending == map[k := Pending("u", 301 + BURL_TTL, 1)] && k in s.condemned;
    s, actions := Then(s, actions, Drop(k));
  }

  // ---- how far apart two counts of one impression are

  /** No handler takes longer than `d` from reading the clock to the deduper. */
  ghost predicate StallsWithin(counted: seq<Count>, d: nat) {
    forall i :: 0 <= i < |counted| ==> counted[i].added - counted[i].captured <= d
  }

  /** Counts of one key are at least `w` seconds apart. */
  ghost predicate Apart(counted: seq<Count>, w: int) {
    forall i, j :: 0 <= i < j < |counted| && counted[i].key == counted[j].key ==> counted[j].added - counted[i].added >= w
  }

  /** The shortest time between two counts of one key when handlers stall for up to `d` seconds. */
  function ShortestGap(d: nat): nat {
    if d <= DEDUP_WINDOW then DEDUP_WINDOW + 1 - d else 0
  }

  lemma StalledCountsAreApart(clock: int, actions: seq<Action>, d: nat)
    requires StallsWithin(Run(Init(clock), actions).counted, d)
    ensures Apart(Run(Init(clock), actions).counted, ShortestGap(d))
  {
    RunInv(clock, actions);
  }

  /** A beacon that stalls for `d` seconds is swept, and counted again `601 - d` seconds after it was counted. */
  lemma StalledBeaconCountsTwice(d: nat) returns (actions: seq<Action>)
    requires d <= DEDUP_WINDOW + 1
    ensures var counted := Run(Init(0), actions).counted;
            && |counted| == 2 && counted[0].key == counted[1].key && StallsWithin(counted, d)
            && counted[1].added - counted[0].added == DEDUP_WINDOW + 1 - d
  {
    hide Run;
    var k := ImpressionKey("a", "b");
    var s := Init(0);
    actions := [];
    RunNothing(s);
    s, actions := Then(s, actions, Arrive(1, k));
    s, actions := Then(s, actions, Tick(d));
    assert s == Init(d).(handlers := map[1 := Captured(k, 0)]);
    s, actions := Then(s, actions, Dedup(1));
    s, actions := Then(s, actions, Tick(DEDUP_WINDOW + 1 - d));
    s, actions := Then(s, actions, BeginSweep);
    s, actions := Then(s, actions, SweepSeen(1, k));
    assert s.seen == map[] && s.counted == [Count(k, 0, d)] && s.handlers == map[1 := Counted(k, 0, 0)];
    s, actions := Then(s, actions, Arrive(2, k));
    s, actions := Then(s, actions, Dedup(2));
  }

  /**
   * Exactly how the window is kept: in all runs whose handlers stall for at most `d` seconds counts
   * of one key are at least `w` apart if and only if `w` is at most 601 - d, or 0 for longer stalls.
   */
  lemma GapExactly(d: nat, w: int)
    ensures (forall clock, actions :: StallsWithin(Run(Init(clock), actions).counted, d) ==>
               Apart(Run(Init(clock), actions).counted, w))
            <==> w <= ShortestGap(d)
  {
    hide Run;
    if w <= ShortestGap(d) {
      forall clock, actions | StallsWithin(Run(Init(clock), actions).counted, d)
        ensures Apart(Run(Init(clock), actions).counted, w)
      {
        StalledCountsAreApart(clock, actions, d);
      }
    } else {
      var actions := StalledBeaconCountsTwice(if d <= DEDUP_WINDOW then d else DEDUP_WINDOW + 1);
    }
  }

  /** The shortest gap in seconds. */
  lemma GapInSeconds(d: nat)
    ensures d <= 601 ==> ShortestGap(d) == 601 - d
    ensures d >= 601 ==> ShortestGap(d) == 0
  {
  }

  /** More than 600 seconds between counts of one impression: if and only if no handler stalls at all. */
  lemma WindowExactly(d: nat)
    ensures (forall clock, actions :: StallsWithin(Run(Init(clock), actions).counted, d) ==>
               Apart(Run(Init(clock), actions).counted, 601))
            <==> d == 0
  {
    GapExactly(d, 601);
    GapInSeconds(d);
  }

  lemma RunNothing(s: State)
    ensures Run(s, []) == s
  {
  }

  lemma Then(s: State, actions: seq<Action>, a: Action) returns (s': State, actions': seq<Action>)
    requires s == Run(Init(0), actions)
    ensures s' == Next(s, a) == Run(Init(0), actions') && actions' == actions + [a]
  {
    s', actions' := Next(s, a), actions + [a];
    assert actions'[..|actions|] == actions;
  }

  // ---- cleaning a shard is a run of sweeper steps

  lemma {:induction false} RunConcat(s: State, xs: seq<Action>, ys: seq<Action>)
    ensures Run(s, xs + ys) == Run(Run(s, xs), ys)
  {
    hide Next;
    if ys == [] {
      assert xs + ys == xs;
    } else {
      assert (xs + ys)[..|xs + ys| - 1] == xs + ys[..|ys| - 1];
      RunConcat(s, xs, ys[..|ys| - 1]);
    }
  }

  /** The entries a cleanup of shard `i` leaves, when those under `todo` are still to be met. */
  ghost function Left(seen: Seen, i: nat, cutoff: int, todo: set<Key>): Seen {
    map k | k in seen && (k in todo || ShardOf(k) != i || seen[k] >= cutoff) :: seen[k]
  }

  lemma {:induction false} SweepKeys(s: State, i: nat, cutoff: int, keys: set<Key>) returns (actions: seq<Action>)
    requires cutoff in s.cutoffs && keys <= s.seen.Keys && forall k :: k in keys ==> ShardOf(k) == i
    ensures forall n :: 0 <= n < |actions| ==> actions[n].SweepSeen?
    ensures Run(s, actions) == s.(seen := Left(s.seen, i, cutoff, s.seen.Keys - keys))
    decreases |keys|
  {
    hide ShardOf;
    if keys == {} {
      actions := [];
      assert Left(s.seen, i, cutoff, s.seen.Keys) == s.seen;
    } else {
      var k :| k in keys;
      var front := SweepKeys(s, i, cutoff, keys - {k});
      actions := front + [SweepSeen(cutoff, k)];
      RunConcat(s, front, [SweepSeen(cutoff, k)]);
      var s' := Run(s, front);
      RunOne(s', SweepSeen(cutoff, k));
      assert Next(s', SweepSeen(cutoff, k)).seen == Left(s.seen, i, cutoff, s.seen.Keys - keys);
    }
  }

  lemma RunOne(s: State, a: Action)
    ensures Run(s, [a]) == Next(s, a)
  {
    assert [a][..0] == [];
  }

  /** What the sweeper does to one shard under its lock is what some steps of this machine do. */
  lemma ShardSweepIsRun(s: State, i: nat, cutoff: int) returns (actions: seq<Action>)
    requires cutoff in s.cutoffs
    ensures forall n :: 0 <= n < |actions| ==> actions[n].SweepSeen?
    ensures Run(s, actions) == s.(seen := WithoutOld(s.seen, i, cutoff))
  {
    hide ShardOf;
    var keys := set k | k in s.seen && ShardOf(k) == i;
    actions := SweepKeys(s, i, cutoff, keys);
    assert Left(s.seen, i, cutoff, s.seen.Keys - keys) == WithoutOld(s.seen, i, cutoff);
  }
}
