/** The scorecard cache: what lookups, computations, stores and invalidations may do to it in any order. */
module Scorecards {
  import opened Prelude

  /** A question, the data answers are computed from, and an answer. */
  type Key = nat
  type Data = nat
  type Cards = nat

  type Compute = (Key, Data) -> Cards

  datatype Entry = Entry(cards: Cards, expires: int, generation: nat)

  datatype Cache = Cache(entries: map<Key, Entry>, generation: nat)

  const MAX_ENTRIES := 512

  function Invalidated(c: Cache): Cache {
    Cache(map[], c.generation + 1)
  }

  predicate Fresh(c: Cache, key: Key, now: int) {
    key in c.entries && c.entries[key].generation == c.generation && now < c.entries[key].expires
  }

  function Unexpired(entries: map<Key, Entry>, now: int): map<Key, Entry> {
    map k | k in entries && now < entries[k].expires :: entries[k]
  }

  function Roomy(entries: map<Key, Entry>, now: int): map<Key, Entry> {
    if |entries| < MAX_ENTRIES then entries
    else if |Unexpired(entries, now)| < MAX_ENTRIES then Unexpired(entries, now)
    else map[]
  }

  /** An answer computed for a question looked up in generation. */
  function Stored(c: Cache, key: Key, cards: Cards, generation: nat, now: int, ttl: int): Cache {
    if ttl <= 0 || generation != c.generation then c
    else c.(entries := Roomy(c.entries, now)[key := Entry(cards, now + ttl, generation)])
  }

  /** The cache as the server's one instance of it. */
  class ScorecardCache {
    var entries: map<Key, Entry>
    var generation: nat
    const ttl: int

    constructor (ttl: int)
      ensures C() == Cache(map[], 0) && this.ttl == ttl
    {
      entries, generation, this.ttl := map[], 0, ttl;
    }

    ghost function C(): Cache
      reads this
    {
      Cache(entries, generation)
    }

    method Invalidate()
      modifies this
      ensures C() == Invalidated(old(C()))
    {
      generation := generation + 1;
      entries := map[];
    }

    method Lookup(key: Key, now: int) returns (cards: Option<Cards>, gen: nat)
      ensures gen == generation
      ensures cards == if Fresh(C(), key, now) then Some(entries[key].cards) else None
    {
      if key !in entries || entries[key].generation != generation || !(now < entries[key].expires) {
        return None, generation;
      }
      return Some(entries[key].cards), generation;
    }

    method Store(key: Key, cards: Cards, gen: nat, now: int)
      modifies `entries
      ensures C() == Stored(old(C()), key, cards, gen, now, ttl)
    {
      if ttl <= 0 {
        return;
      }
      if gen != generation {
        return;
      }
      if |entries| >= MAX_ENTRIES {
        var left := entries.Keys;
        while left != {}
          invariant left <= old(entries).Keys
          invariant entries.Keys == Unexpired(old(entries), now).Keys + left
          invariant forall k :: k in entries ==> entries[k] == old(entries)[k]
        {
          var k :| k in left;
          if !(now < entries[k].expires) {
            entries := entries - {k};
          }
          left := left - {k};
        }
        assert entries == Unexpired(old(entries), now);
        if |entries| >= MAX_ENTRIES {
          entries := map[];
        }
      }
      entries := entries[key := Entry(cards, now + ttl, gen)];
    }
  }

  // ---------------------------------------------------------------- every interleaving

  /** A request's progress: it missed in some generation, and then has its answer computed. */
  datatype Request = Idle | Missed(key: Key, generation: nat) | Computed(key: Key, generation: nat, cards: Cards)

  /** changed says that the data changed since the last invalidation. */
  datatype State = State(cache: Cache, data: Data, changed: bool, requests: seq<Request>)

  datatype Event =
    | Change(data: Data)
    | Invalidate
    | Lookup(r: nat, key: Key, at: int)
    | Load(r: nat)
    | Store(r: nat, at: int)

  predicate Can(s: State, e: Event) {
    match e
    case Change(_) => true
    case Invalidate => true
    case Lookup(r, _, _) => r < |s.requests| && s.requests[r].Idle?
    case Load(r) => r < |s.requests| && s.requests[r].Missed?
    case Store(r, _) => r < |s.requests| && s.requests[r].Computed?
  }

  function After(s: State, e: Event, compute: Compute, ttl: int): State
    requires Can(s, e)
  {
    match e
    case Change(data) => s.(data := data, changed := true)
    case Invalidate => s.(cache := Invalidated(s.cache), changed := false)
    case Lookup(r, key, at) =>
      if Fresh(s.cache, key, at) then s else s.(requests := s.requests[r := Missed(key, s.cache.generation)])
    case Load(r) =>
      var m := s.requests[r];
      s.(requests := s.requests[r := Computed(m.key, m.generation, compute(m.key, s.data))])
    case Store(r, at) =>
      var c := s.requests[r];
      s.(cache := Stored(s.cache, c.key, c.cards, c.generation, at, ttl), requests := s.requests[r := Idle])
  }

  predicate Run(s: State, es: seq<Event>, compute: Compute, ttl: int)
    decreases |es|
  {
    es == [] || (Can(s, es[0]) && Run(After(s, es[0], compute, ttl), es[1..], compute, ttl))
  }

  function End(s: State, es: seq<Event>, compute: Compute, ttl: int): State
    requires Run(s, es, compute, ttl)
    decreases |es|
  {
    if es == [] then s else End(After(s, es[0], compute, ttl), es[1..], compute, ttl)
  }

  predicate AtStart(s: State) {
    s.cache == Cache(map[], 0) && !s.changed && forall r :: 0 <= r < |s.requests| ==> s.requests[r].Idle?
  }

  predicate RequestSound(s: State, r: nat, compute: Compute) {
    r < |s.requests| && !s.requests[r].Idle? ==>
      && s.requests[r].generation <= s.cache.generation
      && (s.requests[r].Computed? && s.requests[r].generation == s.cache.generation && !s.changed
          ==> s.requests[r].cards == compute(s.requests[r].key, s.data))
  }

  predicate EntrySound(s: State, k: Key, compute: Compute) {
    k in s.cache.entries && !s.changed ==> s.cache.entries[k].cards == compute(k, s.data)
  }

  ghost predicate Sound(s: State, compute: Compute) {
    && (forall r :: RequestSound(s, r, compute))
    && (forall k :: EntrySound(s, k, compute))
    && |s.cache.entries| <= MAX_ENTRIES
  }

  lemma StoreWithinCap(c: Cache, key: Key, cards: Cards, generation: nat, now: int, ttl: int)
    requires |c.entries| <= MAX_ENTRIES
    ensures |Stored(c, key, cards, generation, now, ttl).entries| <= MAX_ENTRIES
  {
    var room := Roomy(c.entries, now);
    var e := Entry(cards, now + ttl, generation);
    assert room[key := e].Keys == room.Keys + {key};
    assert |room[key := e]| == |room[key := e].Keys| && |room| == |room.Keys|;
  }

  lemma StepKeepsSound(s: State, e: Event, compute: Compute, ttl: int)
    requires Sound(s, compute) && Can(s, e)
    ensures Sound(After(s, e, compute, ttl), compute)
  {
    var s' := After(s, e, compute, ttl);
    forall r: nat ensures RequestSound(s', r, compute) { assert RequestSound(s, r, compute); }
    forall k: Key ensures EntrySound(s', k, compute) {
      assert EntrySound(s, k, compute);
      if e.Store? { assert RequestSound(s, e.r, compute); }
    }
    if e.Store? {
      var c := s.requests[e.r];
      StoreWithinCap(s.cache, c.key, c.cards, c.generation, e.at, ttl);
    }
  }

  lemma {:induction false} RunKeepsSound(s: State, es: seq<Event>, compute: Compute, ttl: int)
    requires Sound(s, compute) && Run(s, es, compute, ttl)
    ensures Sound(End(s, es, compute, ttl), compute)
    decreases |es|
  {
    hide Sound, After, Can;
    if es != [] {
      StepKeepsSound(s, es[0], compute, ttl);
      RunKeepsSound(After(s, es[0], compute, ttl), es[1..], compute, ttl);
    }
  }

  /** Once the last change has been followed by an invalidation, what the cache answers is what computing it
      now would give, however requests interleave; and it never grows past its limit. */
  lemma HitEqualsRecomputing(s: State, es: seq<Event>, compute: Compute, ttl: int, key: Key, now: int)
    requires AtStart(s) && Run(s, es, compute, ttl)
    ensures var r := End(s, es, compute, ttl);
            && |r.cache.entries| <= MAX_ENTRIES
            && (!r.changed && Fresh(r.cache, key, now) ==> r.cache.entries[key].cards == compute(key, r.data))
  {
    assert Sound(s, compute);
    RunKeepsSound(s, es, compute, ttl);
    assert EntrySound(End(s, es, compute, ttl), key, compute);
  }

  predicate Unstored(es: seq<Event>, r: nat) {
    forall i :: 0 <= i < |es| ==> !(es[i].Store? && es[i].r == r)
  }

  lemma {:induction false} GenerationsPass(s: State, es: seq<Event>, r: nat, compute: Compute, ttl: int)
    requires Run(s, es, compute, ttl) && Unstored(es, r) && r < |s.requests| && !s.requests[r].Idle?
    ensures var t := End(s, es, compute, ttl);
            && r < |t.requests| && !t.requests[r].Idle? && t.requests[r].generation == s.requests[r].generation
            && t.cache.generation >= s.cache.generation + if Invalidate in es then 1 else 0
    decreases |es|
  {
    hide Stored;
    if es != [] {
      assert es[0].Store? ==> es[0].r != r;
      StoredGeneration(s);
      GenerationsPass(After(s, es[0], compute, ttl), es[1..], r, compute, ttl);
      assert Invalidate in es <==> es[0] == Invalidate || Invalidate in es[1..];
    }
  }

  lemma StoredGeneration(s: State)
    ensures forall key, cards, generation, now, ttl ::
              Stored(s.cache, key, cards, generation, now, ttl).generation == s.cache.generation
  {
  }

  /** The generation matters: an answer being computed when the cache was invalidated is never kept, whatever
      else happens before it is stored and however often the cache is filled again meanwhile. */
  lemma OvertakenAnswerIsDropped(s: State, before: seq<Event>, during: seq<Event>, r: nat, at: int, compute: Compute,
                                 ttl: int)
    requires AtStart(s) && Run(s, before, compute, ttl) && Run(End(s, before, compute, ttl), during, compute, ttl)
    requires r < |End(s, before, compute, ttl).requests| && !End(s, before, compute, ttl).requests[r].Idle?
    requires Unstored(during, r) && Invalidate in during
    ensures var t := End(End(s, before, compute, ttl), during, compute, ttl);
            Can(t, Store(r, at)) ==> After(t, Store(r, at), compute, ttl).cache == t.cache
  {
    hide Run, End;
    assert Sound(s, compute);
    RunKeepsSound(s, before, compute, ttl);
    assert RequestSound(End(s, before, compute, ttl), r, compute);
    GenerationsPass(End(s, before, compute, ttl), during, r, compute, ttl);
  }

  /** What storing an answer does: nothing in a later generation, or when answers are not to be kept; else it is
      there, and found until its time is over; and the other entries stay while there is room, then those that
      have not expired, and none when those alone leave no room. */
  lemma StoredExactly(c: Cache, key: Key, cards: Cards, generation: nat, at: int, ttl: int, other: Key, now: int)
    ensures var c' := Stored(c, key, cards, generation, at, ttl);
            var live := map k | k in c.entries && at < c.entries[k].expires :: c.entries[k];
            && c'.generation == c.generation
            && (generation != c.generation || ttl <= 0 ==> c' == c)
            && (generation == c.generation && ttl > 0 ==>
                  && (Fresh(c', key, now) <==> now < at + ttl)
                  && key in c'.entries && c'.entries[key].cards == cards
                  && (other != key ==>
                        (other in c'.entries <==> || (|c.entries| < 512 && other in c.entries)
                                                  || (|c.entries| >= 512 && |live| < 512 && other in live)))
                  && (other != key && other in c'.entries ==> c'.entries[other] == c.entries[other]))
  {
    var live := map k | k in c.entries && at < c.entries[k].expires :: c.entries[k];
    assert live == Unexpired(c.entries, at);
  }

  /** Found is what is there of this generation and not expired. */
  lemma FoundExactly(c: Cache, key: Key, now: int)
    ensures Fresh(c, key, now)
            <==> key in c.entries && c.entries[key].generation == c.generation && now < c.entries[key].expires
    ensures !Fresh(Invalidated(c), key, now) && Invalidated(c).generation > c.generation
  {
  }

  /** A request that misses, computes its answer and stores it undisturbed is answered from the cache from then on,
      and so is everybody who asks the same, until its time is over. */
  lemma AnswerIsKept(s: State, r: nat, key: Key, asked: int, at: int, compute: Compute, ttl: int, now: int)
    requires r < |s.requests| && s.requests[r].Idle? && !Fresh(s.cache, key, asked) && ttl > 0
    ensures var es := [Lookup(r, key, asked), Load(r), Store(r, at)];
            && Run(s, es, compute, ttl)
            && var t := End(s, es, compute, ttl);
               && (Fresh(t.cache, key, now) <==> now < at + ttl) && key in t.cache.entries
               && t.cache.entries[key].cards == compute(key, s.data)
               && t.requests == s.requests && t.data == s.data && t.changed == s.changed
  {
    hide Stored;
    var es := [Lookup(r, key, asked), Load(r), Store(r, at)];
    assert es[1..] == [Load(r), Store(r, at)] && es[1..][1..] == [Store(r, at)] && es[1..][1..][1..] == [];
    var s1 := After(s, es[0], compute, ttl);
    var s2 := After(s1, Load(r), compute, ttl);
    var s3 := After(s2, Store(r, at), compute, ttl);
    StoredExactly(s.cache, key, compute(key, s.data), s.cache.generation, at, ttl, key, now);
    assert Run(s2, [Store(r, at)], compute, ttl) && End(s2, [Store(r, at)], compute, ttl) == s3;
    assert Run(s1, es[1..], compute, ttl) && End(s1, es[1..], compute, ttl) == s3;
    assert s3.requests == s.requests;
  }

  /** The data changes as told, and stays changed until the cache is told. */
  lemma ChangesAreSeen(s: State, data: Data, compute: Compute, ttl: int)
    ensures var t := After(s, Change(data), compute, ttl);
            t.data == data && t.changed && t.cache == s.cache && t.requests == s.requests
    ensures var t := After(s, Invalidate, compute, ttl);
            t.data == s.data && !t.changed && t.requests == s.requests && t.cache.entries == map[]
  {
  }
}
