/**
 The prompt cache (src/cache/mod.rs): a memory map bounded by a byte counter, over a second tier
 in the S5 store that refills it. Each call is one step with one clock reading, in nanoseconds;
 the similarity search that follows an exact-match miss is not modelled.
 */
module PromptCaching {
  import opened Common

  const SECOND: nat := 1_000_000_000
  const MILLISECOND: nat := 1_000_000

  /** A SHA-256 digest in hexadecimal. */
  type Digest = h: string | |h| == 64
    witness "0000000000000000000000000000000000000000000000000000000000000000"

  datatype Config = Config(maxCacheSizeMb: nat, ttlSeconds: nat, hash: string -> Digest) {
    function MaxBytes(): nat { maxCacheSizeMb * 1024 * 1024 }
  }

  /** No two prompts have one digest. */
  ghost predicate CollisionFree(c: Config) {
    forall p, q :: c.hash(p) == c.hash(q) ==> p == q
  }

  datatype Entry = Entry(response: string, createdAt: nat, sizeBytes: nat)

  /** What reaches S5: the creation time and the size are not serialised. */
  datatype Stored = Stored(response: string, generatedAtMs: nat)

  datatype Cache = Cache(entries: map<Digest, Entry>, sizeBytes: int, s5: map<string, Stored>)

  function EmptyCache(): Cache { Cache(map[], 0, map[]) }

  function CachePath(h: Digest): string {
    "/cache/prompts/" + h[0..2] + "/" + h + ".json"
  }

  lemma CachePathIsInjective(g: Digest, h: Digest)
    requires CachePath(g) == CachePath(h)
    ensures g == h
  {
    var at := |"/cache/prompts/" + g[0..2] + "/"|;
    assert CachePath(g)[at..at + 64] == g;
    assert CachePath(h)[at..at + 64] == h;
  }

  // ---------------------------------------------------------------- the calls

  function SizeOf(prompt: string, response: string): nat {
    |response| + |prompt| + 200
  }

  /** The eviction loop, over the keys in the order of their creation times. */
  function Evict(entries: map<Digest, Entry>, total: int, size: nat, max: nat, order: seq<Digest>)
    : (map<Digest, Entry>, int)
    decreases |order|
  {
    if order == [] then (entries, total)
    else if order[0] !in entries then Evict(entries, total, size, max, order[1..])
    else
      var kept, left := entries - {order[0]}, total - entries[order[0]].sizeBytes;
      if left + size <= max then (kept, left) else Evict(kept, left, size, max, order[1..])
  }

  /** The memory after `put` has made room for `size` bytes. */
  function MakeRoom(c: Config, w: Cache, size: nat, order: seq<Digest>): (map<Digest, Entry>, int) {
    if w.sizeBytes + size > c.MaxBytes() && w.entries != map[]
    then Evict(w.entries, w.sizeBytes, size, c.MaxBytes(), order)
    else (w.entries, w.sizeBytes)
  }

  function Put(c: Config, w: Cache, prompt: string, response: string, now: nat, order: seq<Digest>,
      stored: bool): Cache {
    var size := SizeOf(prompt, response);
    var room := MakeRoom(c, w, size, order);
    Cache(
      room.0[c.hash(prompt) := Entry(response, now, size)],
      room.1 + size,
      if stored then w.s5[CachePath(c.hash(prompt)) := Stored(response, now / MILLISECOND)] else w.s5)
  }

  /** Whole seconds since `from`; none if `from` lies ahead. */
  function AgeSeconds(now: nat, from: nat): nat {
    if now < from then 0 else (now - from) / SECOND
  }

  function MemoryHit(c: Config, w: Cache, prompt: string, now: nat): Option<string> {
    var h := c.hash(prompt);
    if h in w.entries && AgeSeconds(now, w.entries[h].createdAt) <= c.ttlSeconds
    then Some(w.entries[h].response) else None
  }

  /** The generation time of a stored entry, cut to whole seconds. */
  function GeneratedAt(s: Stored): nat {
    s.generatedAtMs / 1000 * SECOND
  }

  function StoreHit(c: Config, w: Cache, prompt: string, now: nat, readable: bool): Option<Stored> {
    var path := CachePath(c.hash(prompt));
    if readable && path in w.s5 && GeneratedAt(w.s5[path]) <= now
        && AgeSeconds(now, GeneratedAt(w.s5[path])) <= c.ttlSeconds
    then Some(w.s5[path]) else None
  }

  /** What `get` answers by exact match. */
  function Lookup(c: Config, w: Cache, prompt: string, now: nat, readable: bool): Option<string> {
    var m := MemoryHit(c, w, prompt, now);
    var s := StoreHit(c, w, prompt, now, readable);
    if m.Some? then m else if s.Some? then Some(s.value.response) else None
  }

  /** The cache after `get`: an entry found in S5 enters the memory with no recorded size. */
  function Get(c: Config, w: Cache, prompt: string, now: nat, readable: bool): Cache {
    var s := StoreHit(c, w, prompt, now, readable);
    if MemoryHit(c, w, prompt, now).None? && s.Some?
    then w.(entries := w.entries[c.hash(prompt) := Entry(s.value.response, GeneratedAt(s.value), 0)])
    else w
  }

  /** Where an entry is stored, and how large one is taken to be, against which limit. */
  lemma CacheLayout(c: Config, h: Digest, prompt: string, response: string)
    ensures CachePath(h) == "/cache/prompts/" + h[..2] + "/" + h + ".json"
    ensures SizeOf(prompt, response) == |response| + |prompt| + 200 && c.MaxBytes() == c.maxCacheSizeMb * 1_048_576
  {
  }

  /** What `get` takes for fresh: less than a second past the limit, for the memory also if the clock went back. */
  lemma HitIffYoung(c: Config, w: Cache, prompt: string, now: nat, readable: bool)
    ensures var h := c.hash(prompt);
      var path := CachePath(h);
      && (MemoryHit(c, w, prompt, now).Some? <==>
            h in w.entries && now < w.entries[h].createdAt + (c.ttlSeconds + 1) * 1_000_000_000)
      && (StoreHit(c, w, prompt, now, readable).Some? <==>
            && readable && path in w.s5
            && w.s5[path].generatedAtMs / 1000 * 1_000_000_000 <= now
            && now < w.s5[path].generatedAtMs / 1000 * 1_000_000_000 + (c.ttlSeconds + 1) * 1_000_000_000)
  {
    hide CachePath;
    var h := c.hash(prompt);
    var path := CachePath(h);
    if h in w.entries { YoungIff(now, w.entries[h].createdAt, c.ttlSeconds); }
    if path in w.s5 { YoungIff(now, GeneratedAt(w.s5[path]), c.ttlSeconds); }
  }

  lemma YoungIff(now: nat, from: nat, ttl: nat)
    ensures AgeSeconds(now, from) <= ttl <==> now < from + (ttl + 1) * SECOND
  {
  }

  function Clear(w: Cache): Cache {
    w.(entries := map[], sizeBytes := 0)
  }

  // ---------------------------------------------------------------- recorded sizes

  /** The sum of the recorded entry sizes. */
  ghost function TotalSize(entries: map<Digest, Entry>): nat {
    if entries == map[] then 0
    else
      var h :| h in entries;
      entries[h].sizeBytes + TotalSize(entries - {h})
  }

  lemma {:induction false} TotalWithout(entries: map<Digest, Entry>, h: Digest)
    requires h in entries
    ensures TotalSize(entries) == entries[h].sizeBytes + TotalSize(entries - {h})
    decreases |entries|
  {
    var g :| g in entries && TotalSize(entries) == entries[g].sizeBytes + TotalSize(entries - {g});
    if g != h {
      TotalWithout(entries - {g}, h);
      TotalWithout(entries - {h}, g);
      assert entries - {g} - {h} == entries - {h} - {g};
    }
  }

  function SizeAt(entries: map<Digest, Entry>, h: Digest): nat {
    if h in entries then entries[h].sizeBytes else 0
  }

  lemma TotalAfterInsert(entries: map<Digest, Entry>, h: Digest, e: Entry)
    ensures TotalSize(entries[h := e]) == TotalSize(entries) - SizeAt(entries, h) + e.sizeBytes
  {
    hide TotalSize;
    TotalWithout(entries[h := e], h);
    assert entries[h := e] - {h} == entries - {h};
    if h in entries {
      TotalWithout(entries, h);
    } else {
      assert entries - {h} == entries;
    }
  }

  // ---------------------------------------------------------------- eviction

  /** `order` lists every key once. */
  ghost predicate Listed(entries: map<Digest, Entry>, order: seq<Digest>) {
    && (forall h :: h in order <==> h in entries)
    && (forall i, j :: 0 <= i < j < |order| ==> order[i] != order[j])
  }

  /** `order` lists the keys by creation time; entries of one time stand in any order. */
  ghost predicate OldestFirst(entries: map<Digest, Entry>, order: seq<Digest>) {
    && Listed(entries, order)
    && (forall i, j :: 0 <= i < j < |order| ==>
        order[i] in entries && order[j] in entries && entries[order[i]].createdAt <= entries[order[j]].createdAt)
  }

  ghost function Without(entries: map<Digest, Entry>, gone: seq<Digest>): map<Digest, Entry> {
    map h | h in entries && h !in gone :: entries[h]
  }

  /**
   The first `n` of `order` are gone, no shorter nonempty prefix would have made room, and room was
   made unless nothing is left.
   */
  ghost predicate EvictsPrefix(entries: map<Digest, Entry>, total: int, size: nat, max: nat, order: seq<Digest>,
      n: nat, r: (map<Digest, Entry>, int)) {
    && n <= |order|
    && r.0 == Without(entries, order[..n])
    && r.1 == total - (TotalSize(entries) - TotalSize(r.0))
    && (r.1 + size <= max || n == |order|)
    && (forall m :: 0 < m < n ==> StillTooBig(entries, total, size, max, order[..m]))
  }

  ghost predicate StillTooBig(entries: map<Digest, Entry>, total: int, size: nat, max: nat, gone: seq<Digest>) {
    total - (TotalSize(entries) - TotalSize(Without(entries, gone))) + size > max
  }

  lemma {:induction false} EvictIsLeastPrefix(entries: map<Digest, Entry>, total: int, size: nat, max: nat,
      order: seq<Digest>)
    returns (n: nat)
    requires Listed(entries, order) && order != []
    ensures n > 0 && EvictsPrefix(entries, total, size, max, order, n, Evict(entries, total, size, max, order))
    decreases |order|
  {
    hide TotalSize, EvictsPrefix;
    var h, rest := order[0], order[1..];
    assert h in order;
    var kept, left := entries - {h}, total - entries[h].sizeBytes;
    if left + size <= max || |order| == 1 {
      n := 1;
      FirstAlone(entries, total, size, max, order);
    } else {
      hide Listed;
      TailIsListed(entries, order);
      var m := EvictIsLeastPrefix(kept, left, size, max, rest);
      n := m + 1;
      PrefixGrows(entries, total, size, max, order, m, Evict(kept, left, size, max, rest));
    }
  }

  lemma FirstAlone(entries: map<Digest, Entry>, total: int, size: nat, max: nat, order: seq<Digest>)
    requires order != [] && order[0] in entries
    requires total - entries[order[0]].sizeBytes + size <= max || |order| == 1
    ensures EvictsPrefix(entries, total, size, max, order, 1,
          (entries - {order[0]}, total - entries[order[0]].sizeBytes))
  {
    hide TotalSize;
    TotalWithout(entries, order[0]);
    assert entries - {order[0]} == Without(entries, order[..1]);
  }

  lemma TailIsListed(entries: map<Digest, Entry>, order: seq<Digest>)
    requires Listed(entries, order) && order != []
    ensures Listed(entries - {order[0]}, order[1..])
  {
    assert order == [order[0]] + order[1..];
  }

  lemma WithoutHead(entries: map<Digest, Entry>, order: seq<Digest>, m: nat)
    requires m < |order|
    ensures Without(entries - {order[0]}, order[1..][..m]) == Without(entries, order[..m + 1])
  {
    assert order[..m + 1] == [order[0]] + order[1..][..m];
  }

  lemma PrefixGrows(entries: map<Digest, Entry>, total: int, size: nat, max: nat, order: seq<Digest>, m: nat,
      r: (map<Digest, Entry>, int))
    requires order != [] && order[0] in entries
    requires total - entries[order[0]].sizeBytes + size > max
    requires EvictsPrefix(entries - {order[0]}, total - entries[order[0]].sizeBytes, size, max, order[1..], m, r)
    ensures EvictsPrefix(entries, total, size, max, order, m + 1, r)
  {
    hide TotalSize, Without;
    TotalWithout(entries, order[0]);
    WithoutHead(entries, order, m);
    forall k | 0 < k < m + 1
      ensures StillTooBig(entries, total, size, max, order[..k])
    {
      WithoutHead(entries, order, k - 1);
      if k == 1 {
        WithoutNone(entries - {order[0]}, order[1..]);
      } else {
        assert StillTooBig(entries - {order[0]}, total - entries[order[0]].sizeBytes, size, max, order[1..][..k - 1]);
      }
    }
  }

  lemma WithoutNone(entries: map<Digest, Entry>, order: seq<Digest>)
    ensures Without(entries, order[..0]) == entries
  {
  }

  /**
   Making room drops a shortest prefix of the oldest entries: what goes is no newer than what
   stays, and room is made unless nothing is left.
   */
  lemma EvictionIsOldestFirst(c: Config, w: Cache, size: nat, order: seq<Digest>)
    returns (n: nat)
    requires OldestFirst(w.entries, order)
    ensures n <= |order|
    ensures var room := MakeRoom(c, w, size, order);
      && room.0 == Without(w.entries, order[..n])
      && room.1 - TotalSize(room.0) == w.sizeBytes - TotalSize(w.entries)
      && (room.1 + size <= c.MaxBytes() || room.0 == map[])
      && (
          forall g, h :: g in w.entries && g !in room.0 && h in room.0 ==>
            w.entries[g].createdAt <= w.entries[h].createdAt)
    ensures forall m :: 0 < m < n ==> StillTooBig(w.entries, w.sizeBytes, size, c.MaxBytes(), order[..m])
    ensures n > 0 <==> w.sizeBytes + size > c.MaxBytes() && w.entries != map[]
  {
    hide TotalSize, Evict;
    if w.sizeBytes + size > c.MaxBytes() && w.entries != map[] {
      assert order != [] by { var h :| h in w.entries; assert h in order; }
      n := EvictIsLeastPrefix(w.entries, w.sizeBytes, size, c.MaxBytes(), order);
      EvictedAreOlder(w.entries, order, n);
      if n == |order| {
        assert order[..n] == order;
        assert Without(w.entries, order[..n]) == map[];
      }
    } else {
      n := 0;
      WithoutNone(w.entries, order);
    }
  }

  lemma PrefixMembers(order: seq<Digest>, n: nat)
    requires n <= |order|
    ensures forall j :: 0 <= j < n ==> order[j] in order[..n]
  {
    forall j | 0 <= j < n
      ensures order[j] in order[..n]
    {
      assert order[..n][j] == order[j];
    }
  }

  lemma EvictedAreOlder(entries: map<Digest, Entry>, order: seq<Digest>, n: nat)
    requires OldestFirst(entries, order) && n <= |order|
    ensures var kept := Without(entries, order[..n]);
      forall g, h :: g in entries && g !in kept && h in kept ==> entries[g].createdAt <= entries[h].createdAt
  {
    var kept := Without(entries, order[..n]);
    forall g, h | g in entries && g !in kept && h in kept
      ensures entries[g].createdAt <= entries[h].createdAt
    {
      assert g in order[..n] && h in order;
      var i :| 0 <= i < n && order[i] == g;
      var j :| 0 <= j < |order| && order[j] == h;
      PrefixMembers(order, n);
      assert j >= n;
    }
  }

  // ---------------------------------------------------------------- runs

  datatype Op =
    | PutOp(prompt: string, response: string, now: nat, order: seq<Digest>, stored: bool)
    | GetOp(prompt: string, now: nat, readable: bool)
    | ClearOp

  function Next(c: Config, w: Cache, op: Op): Cache {
    match op
    case PutOp(prompt, response, now, order, stored) => Put(c, w, prompt, response, now, order, stored)
    case GetOp(prompt, now, readable) => Get(c, w, prompt, now, readable)
    case ClearOp => Clear(w)
  }

  function Run(c: Config, w: Cache, ops: seq<Op>): Cache {
    if ops == [] then w else Next(c, Run(c, w, ops[..|ops| - 1]), ops[|ops| - 1])
  }

  /** Every `put` of the run sorts the entries it finds by creation time. */
  ghost predicate Lawful(c: Config, w: Cache, ops: seq<Op>) {
    ops == [] ||
    (var before, op := ops[..|ops| - 1], ops[|ops| - 1];
     Lawful(c, w, before) && LawfulStep(Run(c, w, before), op))
  }

  ghost predicate LawfulStep(w: Cache, op: Op) {
    op.PutOp? ==> OldestFirst(w.entries, op.order)
  }

  // ---------------------------------------------------------------- accounting

  /** What the byte counter claims beyond the recorded sizes. */
  ghost function Drift(w: Cache): int {
    w.sizeBytes - TotalSize(w.entries)
  }

  /**
   A `put` leaks exactly the size of the entry it replaces, and afterwards the recorded total is
   within the limit or the new entry is alone.
   */
  lemma PutAccounts(c: Config, w: Cache, op: Op)
    requires op.PutOp? && OldestFirst(w.entries, op.order)
    ensures var size := SizeOf(op.prompt, op.response);
      var room := MakeRoom(c, w, size, op.order);
      var after := Next(c, w, op);
      && Drift(after) == Drift(w) + SizeAt(room.0, c.hash(op.prompt))
      && (after.sizeBytes <= c.MaxBytes() ||
          after.entries == map[c.hash(op.prompt) := Entry(op.response, op.now, size)])
      && (w.sizeBytes >= TotalSize(w.entries) ==> room.1 >= 0)
  {
    hide TotalSize, MakeRoom;
    var size := SizeOf(op.prompt, op.response);
    var room := MakeRoom(c, w, size, op.order);
    var n := EvictionIsOldestFirst(c, w, size, op.order);
    TotalAfterInsert(room.0, c.hash(op.prompt), Entry(op.response, op.now, size));
  }

  /** The recorded size of the entry that a call overwrites. */
  function ReplacedBy(c: Config, w: Cache, op: Op): nat {
    match op
    case PutOp(prompt, response, _, order, _) => SizeAt(MakeRoom(c, w, SizeOf(prompt, response), order).0,
        c.hash(prompt))
    case GetOp(prompt, now, readable) =>
      if MemoryHit(c, w, prompt, now).None? && StoreHit(c, w, prompt, now, readable).Some?
      then SizeAt(w.entries, c.hash(prompt)) else 0
    case ClearOp => 0
  }

  /** A `get` leaks exactly the size of an entry it reloads over. */
  lemma GetAccounts(c: Config, w: Cache, op: Op)
    requires op.GetOp?
    ensures Drift(Next(c, w, op)) == Drift(w) + ReplacedBy(c, w, op) && Next(c, w, op).sizeBytes == w.sizeBytes
  {
    hide TotalSize, StoreHit, MemoryHit;
    var s := StoreHit(c, w, op.prompt, op.now, op.readable);
    if s.Some? {
      var e := Entry(s.value.response, GeneratedAt(s.value), 0);
      TotalAfterInsert(w.entries, c.hash(op.prompt), e);
    }
  }

  lemma StepAccounts(c: Config, w: Cache, op: Op)
    requires LawfulStep(w, op)
    ensures Drift(Next(c, w, op)) == if op.ClearOp? then 0 else Drift(w) + ReplacedBy(c, w, op)
  {
    hide TotalSize, Put, Get;
    match op
    case PutOp(_, _, _, _, _) => PutAccounts(c, w, op);
    case GetOp(_, _, _) => GetAccounts(c, w, op);
    case ClearOp => EmptyTotal();
  }

  lemma EmptyTotal()
    ensures TotalSize(map[]) == 0
  {
  }

  /**
   Over every run the byte counter is at least the sum of the recorded sizes, so no subtraction
   of the eviction loop goes below zero.
   */
  lemma {:induction false} CounterCovers(c: Config, ops: seq<Op>)
    requires Lawful(c, EmptyCache(), ops)
    ensures var w := Run(c, EmptyCache(), ops); 0 <= TotalSize(w.entries) <= w.sizeBytes
  {
    hide TotalSize, Next;
    if ops == [] {
      EmptyTotal();
    } else {
      var before := ops[..|ops| - 1];
      CounterCovers(c, before);
      StepAccounts(c, Run(c, EmptyCache(), before), ops[|ops| - 1]);
    }
  }

  /** After every `put` of every run, the recorded total is within the limit or the new entry is alone. */
  lemma PutStaysWithin(c: Config, ops: seq<Op>, op: Op)
    requires op.PutOp? && Lawful(c, EmptyCache(), ops + [op])
    ensures var w := Run(c, EmptyCache(), ops + [op]);
      && (TotalSize(w.entries) <= c.maxCacheSizeMb * 1_048_576 || w.entries.Keys == {c.hash(op.prompt)})
      && c.hash(op.prompt) in w.entries
      && w.entries[c.hash(op.prompt)] == Entry(op.response, op.now, |op.response| + |op.prompt| + 200)
  {
    hide TotalSize, MakeRoom;
    assert (ops + [op])[..|ops|] == ops;
    CounterCovers(c, ops + [op]);
    PutAccounts(c, Run(c, EmptyCache(), ops), op);
  }

  /** The sizes replaced since the last `clear`. */
  function Replaced(c: Config, ops: seq<Op>): nat {
    if ops == [] || ops[|ops| - 1].ClearOp? then 0
    else
      var before := ops[..|ops| - 1];
      Replaced(c, before) + ReplacedBy(c, Run(c, EmptyCache(), before), ops[|ops| - 1])
  }

  /** No call since the last `clear` overwrote an entry with a recorded size. */
  predicate NothingReplaced(c: Config, ops: seq<Op>) {
    ops == [] || ops[|ops| - 1].ClearOp? ||
    (var before := ops[..|ops| - 1];
     NothingReplaced(c, before) && ReplacedBy(c, Run(c, EmptyCache(), before), ops[|ops| - 1]) == 0)
  }

  /** In every run the counter exceeds the recorded sizes by exactly what was replaced since the last `clear`. */
  lemma {:induction false} DriftIsWhatWasReplaced(c: Config, ops: seq<Op>)
    requires Lawful(c, EmptyCache(), ops)
    ensures Drift(Run(c, EmptyCache(), ops)) == Replaced(c, ops)
    ensures Drift(Run(c, EmptyCache(), ops)) == 0 <==> NothingReplaced(c, ops)
  {
    hide TotalSize, Next, ReplacedBy;
    if ops == [] {
      EmptyTotal();
    } else {
      var before := ops[..|ops| - 1];
      DriftIsWhatWasReplaced(c, before);
      StepAccounts(c, Run(c, EmptyCache(), before), ops[|ops| - 1]);
    }
  }

  /** Without a `clear`, what has leaked into the counter never leaves it. */
  lemma {:induction false} DriftNeverShrinks(c: Config, w: Cache, ops: seq<Op>)
    requires Lawful(c, w, ops) && forall i :: 0 <= i < |ops| ==> !ops[i].ClearOp?
    ensures Drift(Run(c, w, ops)) >= Drift(w)
  {
    hide TotalSize, Next;
    if ops != [] {
      var before := ops[..|ops| - 1];
      DriftNeverShrinks(c, w, before);
      StepAccounts(c, Run(c, w, before), ops[|ops| - 1]);
    }
  }

  /**
   The leak is lost capacity: until a `clear`, every later `put` leaves recorded sizes within the
   limit less the leak, or its own entry alone; alone it is whenever it does not fit in that.
   */
  lemma LeakIsLostCapacity(c: Config, w: Cache, ops: seq<Op>, op: Op)
    requires op.PutOp? && Lawful(c, w, ops + [op]) && forall i :: 0 <= i < |ops| ==> !ops[i].ClearOp?
    ensures var after := Run(c, w, ops + [op]);
      && (TotalSize(after.entries) <= c.MaxBytes() - Drift(w) || after.entries.Keys == {c.hash(op.prompt)})
      && (SizeOf(op.prompt, op.response) > c.MaxBytes() - Drift(w) ==> after.entries.Keys == {c.hash(op.prompt)})
  {
    hide TotalSize, MakeRoom, Run, Lawful, OldestFirst;
    RunOfMore(c, w, ops, op);
    DriftNeverShrinks(c, w, ops);
    DriftNeverShrinks(c, w, ops + [op]);
    PutAccounts(c, Run(c, w, ops), op);
    TotalWithout(Run(c, w, ops + [op]).entries, c.hash(op.prompt));
  }

  /** Replacing an entry is how it leaks: two puts of one prompt that both fit leave the size of the first behind. */
  lemma ReplacementLeaks(c: Config, prompt: string, first: string, second: string, now: nat, later: nat)
    requires SizeOf(prompt, first) + SizeOf(prompt, second) <= c.MaxBytes()
    ensures var ops := [PutOp(prompt, first, now, [], true), PutOp(prompt, second, later, [c.hash(prompt)], true)];
      Lawful(c, EmptyCache(), ops) && Drift(Run(c, EmptyCache(), ops)) == SizeOf(prompt, first)
  {
    hide TotalSize;
    var one, two := PutOp(prompt, first, now, [], true), PutOp(prompt, second, later, [c.hash(prompt)], true);
    var w := Next(c, EmptyCache(), one);
    LawfulExtends(c, EmptyCache(), [], one);
    LawfulExtends(c, EmptyCache(), [one], two);
    assert [] + [one] == [one] && [one] + [two] == [one, two];
    EmptyTotal();
    PutAccounts(c, EmptyCache(), one);
    PutAccounts(c, w, two);
  }

  lemma LawfulExtends(c: Config, w: Cache, ops: seq<Op>, op: Op)
    requires Lawful(c, w, ops) && LawfulStep(Run(c, w, ops), op)
    ensures Lawful(c, w, ops + [op]) && Run(c, w, ops + [op]) == Next(c, Run(c, w, ops), op)
  {
    hide Next, LawfulStep;
    assert (ops + [op])[..|ops|] == ops;
  }

  lemma RunOfMore(c: Config, w: Cache, ops: seq<Op>, op: Op)
    requires Lawful(c, w, ops + [op])
    ensures Lawful(c, w, ops) && LawfulStep(Run(c, w, ops), op)
    ensures Run(c, w, ops + [op]) == Next(c, Run(c, w, ops), op)
  {
    hide Next, LawfulStep;
    assert (ops + [op])[..|ops|] == ops;
  }

  // ---------------------------------------------------------------- agreement with the puts

  /** The last `put` of `prompt`, as an index of the run; with `kept`, the last one that reached S5. */
  function LatestPut(ops: seq<Op>, prompt: string, kept: bool): (r: Option<nat>)
    ensures r.Some? ==>
            && r.value < |ops| && ops[r.value].PutOp? && ops[r.value].prompt == prompt
            && (kept ==> ops[r.value].stored)
    ensures r.Some? ==>
            forall i :: r.value < i < |ops| ==> !(ops[i].PutOp? && ops[i].prompt == prompt && (kept ==> ops[i].stored))
    ensures r.None? ==>
            forall i :: 0 <= i < |ops| ==> !(ops[i].PutOp? && ops[i].prompt == prompt && (kept ==> ops[i].stored))
  {
    if ops == [] then None
    else
      var op := ops[|ops| - 1];
      if op.PutOp? && op.prompt == prompt && (kept ==> op.stored) then Some(|ops| - 1)
      else LatestPut(ops[..|ops| - 1], prompt, kept)
  }

  /** S5 holds the last `put` of the prompt that reached it. */
  ghost predicate StoreTracks(c: Config, w: Cache, ops: seq<Op>, prompt: string) {
    var path, i := CachePath(c.hash(prompt)), LatestPut(ops, prompt, true);
    if i.None? then path !in w.s5
    else path in w.s5 && w.s5[path] == Stored(ops[i.value].response, ops[i.value].now / MILLISECOND)
  }

  /** The memory holds the last `put`, or a copy of what S5 held, created no later. */
  ghost predicate MemoryTracks(c: Config, w: Cache, ops: seq<Op>, prompt: string) {
    c.hash(prompt) in w.entries ==>
      var e := w.entries[c.hash(prompt)];
      || IsFrom(e, ops, LatestPut(ops, prompt, false))
      || IsFrom(e, ops, LatestPut(ops, prompt, true))
  }

  /** The entry carries the response of the `put` at `i`, and its time, whole or cut to seconds. */
  ghost predicate IsFrom(e: Entry, ops: seq<Op>, i: Option<nat>) {
    && i.Some? && i.value < |ops| && ops[i.value].PutOp?
    && e.response == ops[i.value].response
    && ops[i.value].now / SECOND * SECOND <= e.createdAt <= ops[i.value].now
  }

  lemma WholeSeconds(now: nat)
    ensures now / MILLISECOND / 1000 == now / SECOND
    ensures now / SECOND * SECOND <= now < now / SECOND * SECOND + SECOND
  {
  }

  lemma {:induction false} EveryRunTracks(c: Config, ops: seq<Op>, prompt: string)
    requires CollisionFree(c)
    ensures var w := Run(c, EmptyCache(), ops); StoreTracks(c, w, ops, prompt) && MemoryTracks(c, w, ops, prompt)
  {
    hide Next, StoreTracks, MemoryTracks, CollisionFree, LatestPut;
    if ops == [] {
      EmptyTracks(c, prompt);
    } else {
      var before := ops[..|ops| - 1];
      EveryRunTracks(c, before, prompt);
      assert ops == before + [ops[|ops| - 1]];
      StepTracks(c, Run(c, EmptyCache(), before), before, ops[|ops| - 1], prompt);
    }
  }

  lemma EmptyTracks(c: Config, prompt: string)
    ensures StoreTracks(c, EmptyCache(), [], prompt) && MemoryTracks(c, EmptyCache(), [], prompt)
  {
  }

  lemma StepTracks(c: Config, w: Cache, ops: seq<Op>, op: Op, prompt: string)
    requires CollisionFree(c) && StoreTracks(c, w, ops, prompt) && MemoryTracks(c, w, ops, prompt)
    ensures StoreTracks(c, Next(c, w, op), ops + [op], prompt) && MemoryTracks(c, Next(c, w, op), ops + [op], prompt)
  {
    hide LatestPut, CachePath, CollisionFree;
    LatestOfStep(ops, op, prompt, false);
    LatestOfStep(ops, op, prompt, true);
    match op
    case PutOp(p, response, now, order, stored) =>
      hide MakeRoom;
      if p != prompt { OtherPath(c, p, prompt); }
      RoomIsWithin(c, w, SizeOf(p, response), order);
    case GetOp(p, now, readable) =>
      if p != prompt { OtherPath(c, p, prompt); }
      var i := LatestPut(ops, prompt, true);
      if i.Some? { WholeSeconds(ops[i.value].now); }
    case ClearOp =>
  }

  lemma LatestOfStep(ops: seq<Op>, op: Op, prompt: string, kept: bool)
    ensures LatestPut(ops + [op], prompt, kept)
         == if op.PutOp? && op.prompt == prompt && (kept ==> op.stored) then Some(|ops|)
             else LatestPut(ops, prompt, kept)
  {
    assert (ops + [op])[..|ops|] == ops;
  }

  lemma OtherPath(c: Config, p: string, q: string)
    requires CollisionFree(c) && p != q
    ensures c.hash(p) != c.hash(q) && CachePath(c.hash(p)) != CachePath(c.hash(q))
  {
    hide CachePath;
    if CachePath(c.hash(p)) == CachePath(c.hash(q)) { CachePathIsInjective(c.hash(p), c.hash(q)); }
  }

  /** Making room only removes. */
  lemma RoomIsWithin(c: Config, w: Cache, size: nat, order: seq<Digest>)
    ensures forall h :: h in MakeRoom(c, w, size, order).0 ==>
            h in w.entries && MakeRoom(c, w, size, order).0[h] == w.entries[h]
  {
    EvictIsWithin(w.entries, w.sizeBytes, size, c.MaxBytes(), order);
  }

  lemma {:induction false} EvictIsWithin(entries: map<Digest, Entry>, total: int, size: nat, max: nat,
      order: seq<Digest>)
    ensures forall h :: h in Evict(entries, total, size, max, order).0 ==>
            h in entries && Evict(entries, total, size, max, order).0[h] == entries[h]
    decreases |order|
  {
    if order == [] {
    } else if order[0] !in entries {
      EvictIsWithin(entries, total, size, max, order[1..]);
    } else {
      EvictIsWithin(entries - {order[0]}, total - entries[order[0]].sizeBytes, size, max, order[1..]);
    }
  }

  /**
   Every exact-match hit of every run, from memory or S5, is the response of the last `put` of
   that prompt or of the last one that reached S5, made less than ttl + 1 seconds ago; so a
   reload from S5 never extends a life.
   */
  lemma HitIsARecentPut(c: Config, ops: seq<Op>, prompt: string, now: nat, readable: bool)
    returns (i: nat)
    requires CollisionFree(c)
    requires Lookup(c, Run(c, EmptyCache(), ops), prompt, now, readable).Some?
    ensures i < |ops| && ops[i].PutOp? && ops[i].prompt == prompt
    ensures Lookup(c, Run(c, EmptyCache(), ops), prompt, now, readable) == Some(ops[i].response)
    ensures now < ops[i].now + (c.ttlSeconds + 1) * 1_000_000_000
    ensures Some(i) == LatestPut(ops, prompt, false) || Some(i) == LatestPut(ops, prompt, true)
  {
    hide Run, LatestPut, CollisionFree, CachePath;
    var w := Run(c, EmptyCache(), ops);
    EveryRunTracks(c, ops, prompt);
    var last, kept := LatestPut(ops, prompt, false), LatestPut(ops, prompt, true);
    if MemoryHit(c, w, prompt, now).Some? {
      var e := w.entries[c.hash(prompt)];
      i := if IsFrom(e, ops, last) then last.value else kept.value;
      FreshIsRecent(now, e.createdAt, c.ttlSeconds);
    } else {
      i := kept.value;
      WholeSeconds(ops[i].now);
      FreshIsRecent(now, GeneratedAt(w.s5[CachePath(c.hash(prompt))]), c.ttlSeconds);
    }
  }

  lemma FreshIsRecent(now: nat, from: nat, ttl: nat)
    requires AgeSeconds(now, from) <= ttl
    ensures now < from + (ttl + 1) * SECOND
  {
  }

  predicate PutsInOrder(ops: seq<Op>) {
    forall i, j :: 0 <= i < j < |ops| && ops[i].PutOp? && ops[j].PutOp? ==> ops[i].now <= ops[j].now
  }

  /** While the clock does not go back between puts, a reload overwrites nothing: only puts leak. */
  lemma ReloadReplacesNothing(c: Config, ops: seq<Op>, prompt: string, now: nat, readable: bool)
    requires CollisionFree(c) && PutsInOrder(ops)
    ensures ReplacedBy(c, Run(c, EmptyCache(), ops), GetOp(prompt, now, readable)) == 0
  {
    hide Run, LatestPut, CollisionFree, CachePath;
    var w := Run(c, EmptyCache(), ops);
    EveryRunTracks(c, ops, prompt);
    var last, kept := LatestPut(ops, prompt, false), LatestPut(ops, prompt, true);
    if StoreHit(c, w, prompt, now, readable).Some? && c.hash(prompt) in w.entries {
      var e := w.entries[c.hash(prompt)];
      var i, j := kept.value, if IsFrom(e, ops, last) then last.value else kept.value;
      assert ops[i].now <= ops[j].now;
      WholeSeconds(ops[i].now);
      LaterIsYounger(now, ops[i].now, ops[j].now, e.createdAt);
    }
  }

  /** The sizes that puts replaced since the last `clear`. */
  function ReplacedByPuts(c: Config, ops: seq<Op>): nat {
    if ops == [] || ops[|ops| - 1].ClearOp? then 0
    else
      var before, op := ops[..|ops| - 1], ops[|ops| - 1];
      ReplacedByPuts(c, before) + if op.PutOp? then ReplacedBy(c, Run(c, EmptyCache(), before), op) else 0
  }

  /**
   So in such runs the counter exceeds the recorded sizes by exactly those, and is exact if and only
   if there are none.
   */
  lemma {:induction false} OnlyPutsLeak(c: Config, ops: seq<Op>)
    requires CollisionFree(c) && Lawful(c, EmptyCache(), ops) && PutsInOrder(ops)
    ensures Drift(Run(c, EmptyCache(), ops)) == ReplacedByPuts(c, ops)
    ensures Drift(Run(c, EmptyCache(), ops)) == 0 <==> NothingReplaced(c, ops)
  {
    hide TotalSize, Next, ReplacedBy, CollisionFree;
    DriftIsWhatWasReplaced(c, ops);
    if ops != [] && !ops[|ops| - 1].ClearOp? {
      var before, op := ops[..|ops| - 1], ops[|ops| - 1];
      OnlyPutsLeak(c, before);
      DriftIsWhatWasReplaced(c, before);
      if op.GetOp? { ReloadReplacesNothing(c, before, op.prompt, op.now, op.readable); }
    }
  }

  lemma LaterIsYounger(now: nat, first: nat, second: nat, created: nat)
    requires first <= second && second / SECOND * SECOND <= created && first / SECOND * SECOND <= now
    ensures AgeSeconds(now, created) <= AgeSeconds(now, first / SECOND * SECOND)
  {
  }

  /** If the last `put` of the prompt reached S5, every hit is that put's response. */
  lemma HitIsTheLatestPut(c: Config, ops: seq<Op>, prompt: string, now: nat, readable: bool)
    requires CollisionFree(c)
    requires var last := LatestPut(ops, prompt, false); last.Some? ==> ops[last.value].stored
    ensures var last, hit := LatestPut(ops, prompt, false), Lookup(c, Run(c, EmptyCache(), ops), prompt, now, readable);
      hit.Some? ==> last.Some? && hit.value == ops[last.value].response
  {
    hide Run, Lookup, CollisionFree;
    if Lookup(c, Run(c, EmptyCache(), ops), prompt, now, readable).Some? {
      var i := HitIsARecentPut(c, ops, prompt, now, readable);
    }
  }

  /** And while its whole-second age is within the limit and S5 can be read, there is a hit. */
  lemma FreshPutIsFound(c: Config, ops: seq<Op>, prompt: string, now: nat)
    requires CollisionFree(c)
    requires var last := LatestPut(ops, prompt, false);
      last.Some? && ops[last.value].stored && ops[last.value].now <= now
          && now / 1_000_000_000 - ops[last.value].now / 1_000_000_000 <= c.ttlSeconds
    ensures Lookup(c, Run(c, EmptyCache(), ops), prompt, now, true)
          == Some(ops[LatestPut(ops, prompt, false).value].response)
  {
    hide Run, CollisionFree, CachePath, LatestPut;
    var w := Run(c, EmptyCache(), ops);
    var last := LatestPut(ops, prompt, false);
    LatestIsKept(ops, prompt);
    EveryRunTracks(c, ops, prompt);
    WholeSeconds(ops[last.value].now);
    AgeInSeconds(now, ops[last.value].now / SECOND);
    HitIsTheLatestPut(c, ops, prompt, now, true);
  }

  lemma LatestIsKept(ops: seq<Op>, prompt: string)
    requires var last := LatestPut(ops, prompt, false); last.Some? && ops[last.value].stored
    ensures LatestPut(ops, prompt, true) == LatestPut(ops, prompt, false)
  {
  }

  lemma AgeInSeconds(now: nat, seconds: nat)
    requires seconds * SECOND <= now
    ensures AgeSeconds(now, seconds * SECOND) == now / SECOND - seconds
  {
  }

  /**
   The condition is needed: after a `put` whose write to S5 failed, losing the memory brings the
   older stored response back for as long as that one is fresh.
   */
  lemma FailedWriteRevivesOlderPut(c: Config, ops: seq<Op>, put: Op, now: nat)
    requires CollisionFree(c) && put.PutOp? && !put.stored
    requires var last := LatestPut(ops, put.prompt, false);
      last.Some? && ops[last.value].stored && ops[last.value].now <= now
          && now / 1_000_000_000 - ops[last.value].now / 1_000_000_000 <= c.ttlSeconds
    ensures Lookup(c, Run(c, EmptyCache(), ops + [put, ClearOp]), put.prompt, now, true)
          == Some(ops[LatestPut(ops, put.prompt, false).value].response)
  {
    hide CollisionFree, CachePath, LatestPut, MakeRoom;
    var last := LatestPut(ops, put.prompt, false);
    var all := ops + [put, ClearOp];
    assert all[..|all| - 1] == ops + [put] && (ops + [put])[..|ops|] == ops;
    LatestIsKept(ops, put.prompt);
    EveryRunTracks(c, ops, put.prompt);
    WholeSeconds(ops[last.value].now);
    AgeInSeconds(now, ops[last.value].now / SECOND);
  }

  // ---------------------------------------------------------------- the cache object

  lemma {:induction false} HasOldest(entries: map<Digest, Entry>)
    requires entries != map[]
    ensures exists h :: h in entries && IsOldest(entries, h)
    decreases |entries|
  {
    var g :| g in entries;
    var rest := entries - {g};
    if rest == map[] {
      assert forall h :: h in entries ==> h == g by {
        forall h | h in entries ensures h == g { assert h == g || h in rest; }
      }
      assert IsOldest(entries, g);
    } else {
      HasOldest(rest);
      var h :| h in rest && IsOldest(rest, h);
      assert forall x :: x in entries ==> x == g || (x in rest && rest[x] == entries[x]);
      if entries[g].createdAt <= entries[h].createdAt {
        assert IsOldest(entries, g);
      } else {
        assert IsOldest(entries, h);
      }
    }
  }

  predicate IsOldest(entries: map<Digest, Entry>, h: Digest)
    requires h in entries
  {
    forall g :: g in entries ==> entries[h].createdAt <= entries[g].createdAt
  }

  /** `order` is sorted, holds what is not in `rest`, and nothing in `rest` is older. */
  ghost predicate SortedSoFar(entries: map<Digest, Entry>, rest: map<Digest, Entry>, order: seq<Digest>) {
    && (forall h :: h in rest ==> h in entries && rest[h] == entries[h] && h !in order)
    && (forall h :: h in order ==> h in entries)
    && (forall h :: h in entries ==> h in rest || h in order)
    && (forall i, h :: 0 <= i < |order| && h in rest ==> entries[order[i]].createdAt <= entries[h].createdAt)
    && (forall i, j :: 0 <= i < j < |order| ==>
        order[i] != order[j] && entries[order[i]].createdAt <= entries[order[j]].createdAt)
  }

  lemma SortsNext(entries: map<Digest, Entry>, rest: map<Digest, Entry>, order: seq<Digest>, h: Digest)
    requires SortedSoFar(entries, rest, order) && h in rest && IsOldest(rest, h)
    ensures SortedSoFar(entries, rest - {h}, order + [h])
  {
  }

  /** `sort_by_key` over the entries' creation times. */
  method SortByCreation(entries: map<Digest, Entry>) returns (order: seq<Digest>)
    ensures OldestFirst(entries, order)
  {
    order := [];
    var rest := entries;
    while rest != map[]
      invariant SortedSoFar(entries, rest, order)
      decreases |rest|
    {
      hide SortedSoFar;
      HasOldest(rest);
      var h :| h in rest && IsOldest(rest, h);
      SortsNext(entries, rest, order, h);
      order := order + [h];
      rest := rest - {h};
    }
  }

  class PromptCache {
    const config: Config
    var entries: map<Digest, Entry>
    var sizeBytes: int
    var s5: map<string, Stored>

    ghost function View(): Cache
      reads this
    {
      Cache(entries, sizeBytes, s5)
    }

    /** The counter covers the recorded sizes. */
    ghost predicate Valid()
      reads this
    {
      TotalSize(entries) <= sizeBytes
    }

    constructor (config: Config)
      ensures this.config == config && View() == EmptyCache() && Valid()
    {
      this.config := config;
      entries, sizeBytes, s5 := map[], 0, map[];
    }

    method Get(prompt: string, now: nat, readable: bool) returns (hit: Option<string>)
      requires Valid()
      modifies this`entries
      ensures hit == Lookup(config, old(View()), prompt, now, readable)
      ensures View() == Next(config, old(View()), GetOp(prompt, now, readable)) && Valid()
    {
      GetAccounts(config, View(), GetOp(prompt, now, readable));
      var h := config.hash(prompt);
      if h in entries {
        var e := entries[h];
        if AgeSeconds(now, e.createdAt) <= config.ttlSeconds {
          return Some(e.response);
        }
      }
      var path := CachePath(h);
      if readable && path in s5 {
        var generated := GeneratedAt(s5[path]);
        if generated <= now && AgeSeconds(now, generated) <= config.ttlSeconds {
          var response := s5[path].response;
          entries := entries[h := Entry(response, generated, 0)];
          return Some(response);
        }
      }
      hit := None;
    }

    method Put(prompt: string, response: string, now: nat, stored: bool) returns (order: seq<Digest>)
      requires Valid()
      modifies this
      ensures LawfulStep(old(View()), PutOp(prompt, response, now, order, stored))
      ensures View() == Next(config, old(View()), PutOp(prompt, response, now, order, stored)) && Valid()
    {
      hide OldestFirst, TotalSize, Evict;
      var h, size, max := config.hash(prompt), |response| + |prompt| + 200, config.maxCacheSizeMb * 1024 * 1024;
      order := SortByCreation(entries);
      PutAccounts(config, View(), PutOp(prompt, response, now, order, stored));
      if sizeBytes + size > max && entries != map[] {
        EvictOldest(size, max, order);
      }
      sizeBytes := sizeBytes + size;
      entries := entries[h := Entry(response, now, size)];
      if stored {
        s5 := s5[CachePath(h) := Stored(response, now / MILLISECOND)];
      }
    }

    /** The eviction loop of `put`; the counter never goes below zero. */
    method EvictOldest(size: nat, max: nat, order: seq<Digest>)
      requires Valid()
      modifies this`entries, this`sizeBytes
      ensures (entries, sizeBytes) == Evict(old(entries), old(sizeBytes), size, max, order) && Valid()
    {
      hide TotalSize;
      assert order[0..] == order;
      for i := 0 to |order|
        invariant Valid()
        invariant Evict(entries, sizeBytes, size, max, order[i..])
              == Evict(old(entries), old(sizeBytes), size, max, order)
      {
        var key := order[i];
        assert order[i..][1..] == order[i + 1..];
        if key in entries {
          TotalWithout(entries, key);
          sizeBytes := sizeBytes - entries[key].sizeBytes;
          entries := entries - {key};
          assert sizeBytes >= 0;
          if sizeBytes + size <= max {
            return;
          }
        }
      }
    }

    method Clear()
      modifies this
      ensures View() == Next(config, old(View()), ClearOp) && Valid()
    {
      entries := map[];
      sizeBytes := 0;
    }
  }
}
