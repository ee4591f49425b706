/** The TTL cache: sequentially a plain timed map; under interleaving, Get's late delete may drop a fresh entry. */
module Cache {
  import opened Common

  /** None means no expiry. */
  datatype Entry<V> = Entry(value: V, expires: Option<int>)

  type Entries<!K(==), V> = map<K, Entry<V>>

  predicate Expired<V>(e: Entry<V>, now: int) { e.expires.Some? && now > e.expires.value }

  function NewEntry<V>(value: V, ttl: int, now: int): Entry<V> { Entry(value, if ttl > 0 then Some(now + ttl) else None) }

  /** The reference: a timed map that never evicts. */
  function Lookup<K, V>(m: Entries<K, V>, k: K, now: int): Option<V> {
    if k in m && !Expired(m[k], now) then Some(m[k].value) else None
  }

  function Swept<K, V>(m: Entries<K, V>, now: int): Entries<K, V> { map k | k in m && !Expired(m[k], now) :: m[k] }

  function AfterGet<K, V>(m: Entries<K, V>, k: K, now: int): Entries<K, V> {
    if k in m && Expired(m[k], now) then m - {k} else m
  }

  class Cache<K(==), V> {
    var entries: Entries<K, V>

    constructor ()
      ensures entries == map[]
    {
      entries := map[];
    }

    method Set(key: K, value: V, ttl: int, now: int)
      modifies this
      ensures entries == old(entries)[key := NewEntry(value, ttl, now)]
    {
      var exp := None;
      if ttl > 0 {
        exp := Some(now + ttl);
      }
      entries := entries[key := Entry(value, exp)];
    }

    method Get(key: K, now: int) returns (r: Option<V>)
      modifies this
      ensures r == Lookup(old(entries), key, now)
      ensures entries == AfterGet(old(entries), key, now)
    {
      if key !in entries {
        return None;
      }
      var e := entries[key];
      if e.expires.Some? && now > e.expires.value {
        Delete(key);
        return None;
      }
      r := Some(e.value);
    }

    method Delete(key: K)
      modifies this
      ensures entries == old(entries) - {key}
    {
      entries := entries - {key};
    }

    method Len() returns (n: nat)
      ensures n == |entries|
    {
      n := |entries|;
    }

    method Purge(now: int)
      modifies this
      ensures entries == Swept(old(entries), now)
    {
      var left := entries.Keys;
      while left != {}
        invariant left <= old(entries).Keys && entries.Keys <= old(entries).Keys
        invariant forall k :: k in left ==> k in entries
        invariant forall k :: k in entries ==> entries[k] == old(entries)[k]
        invariant forall k :: k in old(entries) && k !in left ==> (k in entries <==> !Expired(old(entries)[k], now))
        decreases |left|
      {
        var k :| k in left;
        if Expired(entries[k], now) {
          entries := entries - {k};
        }
        left := left - {k};
      }
    }
  }

  // --------------------------------------------------------- one call at a time

  datatype Call<K, V> = Set(key: K, value: V, ttl: int) | Get(key: K) | Delete(key: K) | Purge | Wait(elapsed: nat)

  /** The cache, the never-evicting map, and the clock. */
  datatype Pair<!K(==), V> = Pair(entries: Entries<K, V>, reference: Entries<K, V>, now: int)

  function RunCall<K(==), V>(p: Pair<K, V>, c: Call<K, V>): Pair<K, V> {
    match c
    case Set(k, v, ttl) => Pair(p.entries[k := NewEntry(v, ttl, p.now)], p.reference[k := NewEntry(v, ttl, p.now)], p.now)
    case Get(k) => p.(entries := AfterGet(p.entries, k, p.now))
    case Delete(k) => p.(entries := p.entries - {k}, reference := p.reference - {k})
    case Purge => p.(entries := Swept(p.entries, p.now))
    case Wait(elapsed) => p.(now := p.now + elapsed)
  }

  function RunCalls<K(==), V>(p: Pair<K, V>, calls: seq<Call<K, V>>): Pair<K, V>
    decreases |calls|
  {
    if calls == [] then p else RunCalls(RunCall(p, calls[0]), calls[1..])
  }

  /** What the cache lacks has expired in the reference; what it has is there too. */
  ghost predicate Mirrors<K(!new), V>(p: Pair<K, V>) {
    && (forall k :: k in p.entries ==> k in p.reference && p.entries[k] == p.reference[k])
    && (forall k :: k in p.reference && k !in p.entries ==> Expired(p.reference[k], p.now))
  }

  lemma {:induction false} SequentialGetExact<K(!new), V>(p: Pair<K, V>, calls: seq<Call<K, V>>, k: K)
    requires Mirrors(p)
    ensures var q := RunCalls(p, calls); Lookup(q.entries, k, q.now) == Lookup(q.reference, k, q.now)
    decreases |calls|
  {
    if calls != [] {
      assert Mirrors(RunCall(p, calls[0]));
      SequentialGetExact(RunCall(p, calls[0]), calls[1..], k);
    }
  }

  // The answers from the calls alone: which Set of the key still stands, made when.

  ghost function Clock<K, V>(start: int, calls: seq<Call<K, V>>): int {
    if calls == [] then start
    else
      var n := |calls| - 1;
      Clock(start, calls[..n]) + if calls[n].Wait? then calls[n].elapsed else 0
  }

  datatype Written<V> = Written(value: V, ttl: int, at: int)

  /** The last Set of the key, unless a Delete came after it. */
  ghost function LastSet<K, V>(start: int, calls: seq<Call<K, V>>, k: K): Option<Written<V>> {
    if calls == [] then None
    else
      var n := |calls| - 1;
      match calls[n]
      case Set(key, v, ttl) => if key == k then Some(Written(v, ttl, Clock(start, calls[..n]))) else LastSet(start, calls[..n], k)
      case Delete(key) => if key == k then None else LastSet(start, calls[..n], k)
      case _ => LastSet(start, calls[..n], k)
  }

  /** Without a positive ttl a value is good for ever, with one up to and including at + ttl. */
  ghost predicate Good<V>(w: Option<Written<V>>, now: int) { w.Some? && (w.value.ttl <= 0 || now <= w.value.at + w.value.ttl) }

  lemma {:induction false} RunSnoc<K, V>(p: Pair<K, V>, calls: seq<Call<K, V>>, c: Call<K, V>)
    ensures RunCalls(p, calls + [c]) == RunCall(RunCalls(p, calls), c)
    decreases |calls|
  {
    hide RunCall;
    if calls == [] {
      assert [c][1..] == [] && [] + [c] == [c];
      assert RunCalls(RunCall(p, c), []) == RunCall(p, c);
    } else {
      RunSnoc(RunCall(p, calls[0]), calls[1..], c);
      assert (calls + [c])[1..] == calls[1..] + [c];
    }
  }

  /** The entry a standing Set left, in the never-evicting map always and in the cache while it is good. */
  ghost predicate Holds<K, V>(p: Pair<K, V>, k: K, w: Option<Written<V>>) {
    && (k in p.reference <==> w.Some?)
    && (k in p.entries ==> w.Some?)
    && (w.Some? ==>
          && p.reference[k].value == w.value.value
          && (p.reference[k].expires.Some? <==> w.value.ttl > 0)
          && (w.value.ttl > 0 ==> p.reference[k].expires.value == w.value.at + w.value.ttl))
  }

  lemma {:induction false} HoldsLastSet<K(!new), V>(start: int, calls: seq<Call<K, V>>, k: K)
    ensures var p := RunCalls(Pair(map[], map[], start), calls);
            p.now == Clock(start, calls) && Mirrors(p) && Holds(p, k, LastSet(start, calls, k))
  {
    if calls != [] {
      var n := |calls| - 1;
      HoldsLastSet(start, calls[..n], k);
      RunSnoc(Pair(map[], map[], start), calls[..n], calls[n]);
      assert calls[..n] + [calls[n]] == calls;
    }
  }

  /** In every run a Get answers with the value of the standing Set exactly while it is good, and with nothing otherwise. */
  lemma AnswersExactly<K(!new), V>(start: int, calls: seq<Call<K, V>>, k: K)
    ensures var p := RunCalls(Pair(map[], map[], start), calls);
            var w := LastSet(start, calls, k);
            Lookup(p.entries, k, p.now) == if Good(w, Clock(start, calls)) then Some(w.value.value) else None
  {
    HoldsLastSet(start, calls, k);
  }

  /** After a Get of it, or a Purge, an entry is stored exactly when it is good. */
  lemma EvictsExactly<K(!new), V>(start: int, calls: seq<Call<K, V>>, k: K)
    requires calls != [] && (calls[|calls| - 1] == Get(k) || calls[|calls| - 1].Purge?)
    ensures k in RunCalls(Pair(map[], map[], start), calls).entries <==> Good(LastSet(start, calls, k), Clock(start, calls))
  {
    var n := |calls| - 1;
    HoldsLastSet(start, calls[..n], k);
    HoldsLastSet(start, calls, k);
    RunSnoc(Pair(map[], map[], start), calls[..n], calls[n]);
    assert calls[..n] + [calls[n]] == calls;
  }

  lemma {:induction false} LaterCalls<K, V>(start: int, calls: seq<Call<K, V>>, later: seq<Call<K, V>>, k: K)
    requires forall c :: c in later ==> !(c.Set? && c.key == k) && !(c.Delete? && c.key == k)
    ensures LastSet(start, calls + later, k) == LastSet(start, calls, k)
  {
    if later == [] {
      assert calls + later == calls;
    } else {
      var n := |later| - 1;
      assert (calls + later)[..|calls + later| - 1] == calls + later[..n];
      LaterCalls(start, calls, later[..n], k);
    }
  }

  /** In particular a value set at time a is found at time b, nobody having set or deleted its key since, iff ttl <= 0 or b <= a + ttl. */
  lemma FoundExactly<K(!new), V>(start: int, calls: seq<Call<K, V>>, k: K, v: V, ttl: int, later: seq<Call<K, V>>)
    requires forall c :: c in later ==> !(c.Set? && c.key == k) && !(c.Delete? && c.key == k)
    ensures var all := calls + [Set(k, v, ttl)] + later;
            var p := RunCalls(Pair(map[], map[], start), all);
            var a, b := Clock(start, calls), Clock(start, all);
            Lookup(p.entries, k, p.now) == if ttl <= 0 || b <= a + ttl then Some(v) else None
  {
    var upTo := calls + [Set(k, v, ttl)];
    assert upTo[..|calls|] == calls && LastSet(start, upTo, k) == Some(Written(v, ttl, Clock(start, calls)));
    LaterCalls(start, upTo, later, k);
    AnswersExactly(start, upTo + later, k);
  }

  // ------------------------------------------------------------- interleaved Gets

  /** Get has read the map (and would have found `reference` in the never-evicting one), or is about to delete. */
  datatype Phase<K, V> = Read(key: K, found: Option<Entry<V>>, reference: Option<Entry<V>>) | Deleting(key: K, stale: Entry<V>)

  datatype Hit<K, V> = Hit(key: K, value: V, reference: Option<Entry<V>>, at: int)

  datatype World<!K(==), V> = World(p: Pair<K, V>, gets: map<nat, Phase<K, V>>, hits: seq<Hit<K, V>>)

  datatype Step<K, V> =
    | Tick(elapsed: nat)
    | Put(key: K, entry: Entry<V>)           // Set computed its expiry before taking the lock
    | Remove(key: K)
    | Sweep(lag: nat)                        // Purge read the clock before taking the lock
    | BeginGet(id: nat, key: K)
    | Check(id: nat)
    | LazyDelete(id: nat)

  ghost predicate Possible<K, V>(w: World<K, V>, s: Step<K, V>) {
    match s
    case BeginGet(id, _) => id !in w.gets
    case Check(id) => id in w.gets && w.gets[id].Read?
    case LazyDelete(id) => id in w.gets && w.gets[id].Deleting?
    case _ => true
  }

  ghost function Find<K, V>(m: Entries<K, V>, k: K): Option<Entry<V>> { if k in m then Some(m[k]) else None }

  ghost function Next<K, V>(w: World<K, V>, s: Step<K, V>): World<K, V>
    requires Possible(w, s)
  {
    var p := w.p;
    match s
    case Tick(elapsed) => w.(p := p.(now := p.now + elapsed))
    case Put(k, e) => w.(p := p.(entries := p.entries[k := e], reference := p.reference[k := e]))
    case Remove(k) => w.(p := p.(entries := p.entries - {k}, reference := p.reference - {k}))
    case Sweep(lag) => w.(p := p.(entries := Swept(p.entries, p.now - lag)))
    case BeginGet(id, k) => w.(gets := w.gets[id := Read(k, Find(p.entries, k), Find(p.reference, k))])
    case Check(id) =>
      var g := w.gets[id];
      (match g.found
       case None => w.(gets := w.gets - {id})
       case Some(e) =>
         if Expired(e, p.now) then w.(gets := w.gets[id := Deleting(g.key, e)])
         else w.(gets := w.gets - {id}, hits := w.hits + [Hit(g.key, e.value, g.reference, p.now)]))
    case LazyDelete(id) => w.(p := p.(entries := p.entries - {w.gets[id].key}), gets := w.gets - {id})
  }

  ghost predicate Inv<K(!new), V>(w: World<K, V>) {
    && (forall k :: k in w.p.entries ==> k in w.p.reference && w.p.entries[k] == w.p.reference[k])
    && (forall id :: id in w.gets ==>
          match w.gets[id]
          case Read(_, found, reference) => found.Some? ==> found == reference
          case Deleting(_, stale) => Expired(stale, w.p.now))
    && (forall i :: 0 <= i < |w.hits| ==>
          w.hits[i].reference.Some? && w.hits[i].reference.value.value == w.hits[i].value && !Expired(w.hits[i].reference.value, w.hits[i].at))
  }

  ghost predicate Runs<K, V>(w: World<K, V>, steps: seq<Step<K, V>>)
    decreases |steps|
  {
    steps == [] || (Possible(w, steps[0]) && Runs(Next(w, steps[0]), steps[1..]))
  }

  ghost function End<K, V>(w: World<K, V>, steps: seq<Step<K, V>>): World<K, V>
    requires Runs(w, steps)
    decreases |steps|
  {
    if steps == [] then w else End(Next(w, steps[0]), steps[1..])
  }

  lemma StepKeeps<K(!new), V>(w: World<K, V>, s: Step<K, V>)
    requires Inv(w) && Possible(w, s)
    ensures Inv(Next(w, s))
  {}

  /** Whatever is interleaved, a value Get returns was the latest one set when it read, and unexpired when it checked. */
  lemma {:induction false} HitsAreLatest<K(!new), V>(w: World<K, V>, steps: seq<Step<K, V>>)
    requires Inv(w) && Runs(w, steps)
    ensures Inv(End(w, steps))
    ensures forall i :: 0 <= i < |End(w, steps).hits| ==>
      var h := End(w, steps).hits[i];
      h.reference.Some? && Lookup(map[h.key := h.reference.value], h.key, h.at) == Some(h.value)
    decreases |steps|
  {
    if steps != [] {
      StepKeeps(w, steps[0]);
      HitsAreLatest(Next(w, steps[0]), steps[1..]);
    }
  }

  /** The delayed delete removes what is still expired (or gone). */
  ghost predicate Harmless<K, V>(w: World<K, V>, s: Step<K, V>)
    requires Possible(w, s)
  {
    s.LazyDelete? ==> w.gets[s.id].key in w.p.entries ==> Expired(w.p.entries[w.gets[s.id].key], w.p.now)
  }

  /** A step keeps the cache exact iff it is harmless: only a Set between Get's read and its delete can lose an entry. */
  lemma ExactIffHarmless<K(!new), V>(w: World<K, V>, s: Step<K, V>)
    requires Inv(w) && Mirrors(w.p) && Possible(w, s)
    ensures Mirrors(Next(w, s).p) <==> Harmless(w, s)
  {
    if s.LazyDelete? {
      var k := w.gets[s.id].key;
      if k in w.p.entries && !Expired(w.p.entries[k], w.p.now) {
        assert k in Next(w, s).p.reference && k !in Next(w, s).p.entries;
      }
    }
  }

  /** At every point of the run the cache agrees with the never-evicting map. */
  ghost predicate MirrorsThroughout<K(!new), V>(w: World<K, V>, steps: seq<Step<K, V>>)
    requires Runs(w, steps)
    decreases |steps|
  {
    Mirrors(w.p) && (steps == [] || MirrorsThroughout(Next(w, steps[0]), steps[1..]))
  }

  /** Every lazy delete of the run was harmless when it was made. */
  ghost predicate DeletesHarmless<K(!new), V>(w: World<K, V>, steps: seq<Step<K, V>>)
    requires Runs(w, steps)
    decreases |steps|
  {
    steps == [] || (Harmless(w, steps[0]) && DeletesHarmless(Next(w, steps[0]), steps[1..]))
  }

  /** In every run the cache is exact at every point if and only if every lazy delete was harmless when made. */
  lemma {:induction false} ExactThroughout<K(!new), V>(w: World<K, V>, steps: seq<Step<K, V>>)
    requires Inv(w) && Mirrors(w.p) && Runs(w, steps)
    ensures MirrorsThroughout(w, steps) <==> DeletesHarmless(w, steps)
    decreases |steps|
  {
    if steps != [] {
      ExactIffHarmless(w, steps[0]);
      StepKeeps(w, steps[0]);
      hide Inv, Mirrors, Possible, Next, Harmless;
      if Harmless(w, steps[0]) {
        ExactThroughout(Next(w, steps[0]), steps[1..]);
      }
    }
  }

  /** An unharmed entry is still the one Get read unless a Set replaced it. */
  lemma UnreplacedIsHarmless<K(!new), V>(w: World<K, V>, id: nat)
    requires Inv(w) && id in w.gets && w.gets[id].Deleting?
    requires w.gets[id].key in w.p.entries ==> w.p.entries[w.gets[id].key] == w.gets[id].stale
    ensures Harmless(w, LazyDelete(id))
  {}

  /** The race happens: a value set just after an expired read is gone, and the next Get misses. */
  lemma FreshEntryLost<K(!new), V>(k: K, first: V, second: V) returns (steps: seq<Step<K, V>>)
    ensures var start := World(Pair(map[], map[], 0), map[], []);
            && Runs(start, steps)
            && var w := End(start, steps);
               Lookup(w.p.reference, k, w.p.now) == Some(second) && Lookup(w.p.entries, k, w.p.now) == None
  {
    var w0: World<K, V> := World(Pair(map[], map[], 0), map[], []);
    var s0, s1, s2, s3, s4, s5 := Put(k, Entry(first, Some(1))), Tick(2), BeginGet(0, k), Check(0), Put(k, Entry(second, None)), LazyDelete(0);
    var w1 := Next(w0, s0);
    var w2 := Next(w1, s1);
    var w3 := Next(w2, s2);
    var w4 := Next(w3, s3);
    var w5 := Next(w4, s4);
    var w6 := Next(w5, s5);
    Prepend(w5, s5, []);
    Prepend(w4, s4, [s5]);
    Prepend(w3, s3, [s4, s5]);
    Prepend(w2, s2, [s3, s4, s5]);
    Prepend(w1, s1, [s2, s3, s4, s5]);
    Prepend(w0, s0, [s1, s2, s3, s4, s5]);
    steps := [s0] + [s1, s2, s3, s4, s5];
    assert [s5] + [] == [s5] && [s4] + [s5] == [s4, s5] && [s3] + [s4, s5] == [s3, s4, s5];
    assert [s2] + [s3, s4, s5] == [s2, s3, s4, s5] && [s1] + [s2, s3, s4, s5] == [s1, s2, s3, s4, s5];
  }

  lemma Prepend<K(!new), V>(w: World<K, V>, s: Step<K, V>, rest: seq<Step<K, V>>)
    requires Possible(w, s) && Runs(Next(w, s), rest)
    ensures Runs(w, [s] + rest) && End(w, [s] + rest) == End(Next(w, s), rest)
  {
    assert ([s] + rest)[1..] == rest;
  }
}
