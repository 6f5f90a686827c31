/** The 64-way sharded set of impressions that were already counted. */
module Deduper {

  datatype ImpressionKey = ImpressionKey(auctionID: string, bidID: string)

  const SHARD_COUNT: nat := 64

  /** One FNV-1a round on a 64-bit word. */
  function Mix(h: bv64, c: char): bv64 {
    (h ^ (c as bv64)) * 1099511628211
  }

  function HashBytes(h: bv64, s: string): bv64
    decreases |s|
  {
    if s == "" then h else HashBytes(Mix(h, s[0]), s[1..])
  }

  function HashImpressionKey(key: ImpressionKey): bv64 {
    HashBytes(Mix(HashBytes(1469598103934665603, key.auctionID), ':'), key.bidID)
  }

  function ShardOf(key: ImpressionKey): (r: nat)
    ensures r < SHARD_COUNT
  {
    var masked := HashImpressionKey(key) & 63;
    assert masked < 64;
    masked as nat
  }

  lemma {:induction false} HashAppend(h: bv64, s: string, t: string)
    ensures HashBytes(h, s + t) == HashBytes(HashBytes(h, s), t)
    decreases |s|
  {
    hide Mix;
    if s == "" {
      assert s + t == t;
    } else {
      assert (s + t)[1..] == s[1..] + t;
      HashAppend(Mix(h, s[0]), s[1..], t);
    }
  }

  lemma HashOne(h: bv64, c: char)
    ensures HashBytes(h, [c]) == Mix(h, c)
  {
    hide Mix;
    assert [c][1..] == [];
  }

  /** The hash of a key is that of its two parts with a colon between them. */
  lemma KeyHashIsText(key: ImpressionKey)
    ensures HashImpressionKey(key) == HashBytes(1469598103934665603, key.auctionID + ":" + key.bidID)
  {
    hide HashBytes, Mix;
    HashAppend(1469598103934665603, key.auctionID + ":", key.bidID);
    HashAppend(1469598103934665603, key.auctionID, ":");
    HashOne(HashBytes(1469598103934665603, key.auctionID), ':');
    assert ":" == [':'];
  }

  /** One of 64 shards: the hash modulo 64. */
  lemma ShardIsModulo(key: ImpressionKey)
    ensures SHARD_COUNT == 64 && ShardOf(key) == (HashImpressionKey(key) % 64) as nat
  {
    hide HashImpressionKey;
    MaskIsModulo(HashImpressionKey(key));
  }

  lemma MaskIsModulo(h: bv64)
    ensures h & 63 == h % 64
  {
  }

  type Seen = map<ImpressionKey, int>

  /** The entries that are not older than the cutoff. */
  function Since(seen: Seen, cutoff: int): Seen {
    map k | k in seen && seen[k] >= cutoff :: seen[k]
  }

  /** The shards hold one map between them, each key only where its hash puts it. */
  ghost predicate Shards(shards: seq<Seen>, seen: Seen) {
    && |shards| == SHARD_COUNT
    && (forall i, k :: 0 <= i < |shards| && k in shards[i] ==> ShardOf(k) == i)
    && (forall k :: k in seen <==> k in shards[ShardOf(k)])
    && (forall k :: k in seen ==> seen[k] == shards[ShardOf(k)][k])
  }

  /** The map without the entries of shard `i` that are older than the cutoff. */
  function WithoutOld(seen: Seen, i: nat, cutoff: int): Seen {
    map k | k in seen && (ShardOf(k) != i || seen[k] >= cutoff) :: seen[k]
  }

  lemma ShardsEmpty(shards: seq<Seen>)
    requires |shards| == SHARD_COUNT && forall i :: 0 <= i < |shards| ==> shards[i] == map[]
    ensures Shards(shards, map[])
  {
    hide ShardOf;
  }

  lemma ShardsAdd(shards: seq<Seen>, seen: Seen, key: ImpressionKey, at: int)
    requires Shards(shards, seen)
    ensures var i := ShardOf(key);
            Shards(shards[i := shards[i][key := at]], seen[key := at])
  {
    hide ShardOf;
  }

  lemma ShardsClean(shards: seq<Seen>, seen: Seen, i: nat, cutoff: int)
    requires Shards(shards, seen) && i < SHARD_COUNT
    ensures Shards(shards[i := Since(shards[i], cutoff)], WithoutOld(seen, i, cutoff))
  {
    hide ShardOf;
  }

  /** The map without old entries in the first `n` shards. */
  ghost function CleanedTo(seen: Seen, n: nat, cutoff: int): Seen {
    map k | k in seen && (ShardOf(k) >= n || seen[k] >= cutoff) :: seen[k]
  }

  lemma CleanedStep(seen: Seen, n: nat, cutoff: int)
    ensures WithoutOld(CleanedTo(seen, n, cutoff), n, cutoff) == CleanedTo(seen, n + 1, cutoff)
    ensures CleanedTo(seen, 0, cutoff) == seen && CleanedTo(seen, SHARD_COUNT, cutoff) == Since(seen, cutoff)
  {
    hide ShardOf;
  }

  class ImpressionDeduper {
    const shards: array<Seen>
    ghost var seen: Seen

    ghost predicate Valid()
      reads this, shards
    {
      Shards(shards[..], seen)
    }

    constructor ()
      ensures Valid() && seen == map[] && fresh(shards)
    {
      hide Shards;
      shards := new Seen[SHARD_COUNT](_ => map[]);
      seen := map[];
      new;
      ShardsEmpty(shards[..]);
    }

    method SeenOrAdd(key: ImpressionKey, seenAtUnix: int) returns (duplicate: bool)
      requires Valid()
      modifies this, shards
      ensures Valid()
      ensures duplicate == (key in old(seen))
      ensures seen == if duplicate then old(seen) else old(seen)[key := seenAtUnix]
    {
      hide ShardOf;
      var i := ShardOf(key);
      duplicate := key in shards[i];
      if !duplicate {
        ShardsAdd(shards[..], seen, key, seenAtUnix);
        ghost var before := shards[..];
        shards[i] := shards[i][key := seenAtUnix];
        seen := seen[key := seenAtUnix];
        assert shards[..] == before[i := before[i][key := seenAtUnix]];
      }
    }

    /** One shard under its lock; other calls may come in between two of these. */
    method CleanShard(i: nat, cutoffUnix: int)
      requires Valid() && i < SHARD_COUNT
      modifies this, shards
      ensures Valid() && seen == WithoutOld(old(seen), i, cutoffUnix)
    {
      hide ShardOf, Shards;
      ghost var before := shards[..];
      ShardsLength(before, seen);
      var todo, kept := shards[i].Keys, shards[i];
      while todo != {}
        invariant todo <= shards[i].Keys && shards[..] == before && seen == old(seen)
        invariant kept == map k | k in shards[i] && (k in todo || shards[i][k] >= cutoffUnix) :: shards[i][k]
        decreases |todo|
      {
        var k :| k in todo;
        todo := todo - {k};
        if shards[i][k] < cutoffUnix {
          kept := kept - {k};
        }
      }
      assert kept == Since(shards[i], cutoffUnix) && shards[i] == before[i];
      ShardsClean(before, seen, i, cutoffUnix);
      shards[i] := kept;
      seen := WithoutOld(seen, i, cutoffUnix);
      assert shards[..] == before[i := kept];
    }

    /** Left alone, the whole sweep. */
    method CleanupBefore(cutoffUnix: int)
      requires Valid()
      modifies this, shards
      ensures Valid() && seen == Since(old(seen), cutoffUnix)
    {
      hide ShardOf, Shards;
      CleanedStep(seen, 0, cutoffUnix);
      for i := 0 to SHARD_COUNT
        invariant Valid() && seen == CleanedTo(old(seen), i, cutoffUnix)
      {
        CleanedStep(old(seen), i, cutoffUnix);
        CleanShard(i, cutoffUnix);
      }
    }
  }

  lemma ShardsLength(shards: seq<Seen>, seen: Seen)
    requires Shards(shards, seen)
    ensures |shards| == SHARD_COUNT
  {
  }
}
