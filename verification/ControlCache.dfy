/**
 The cached reader of control events: an LRU with a time-to-live in front of the table, keyed
 by virtual key. A cached event is served while it covers the requested time.
 */
module ControlCache {
  import opened Options

  // In force from `start` until just before `end`; None is open-ended.
  datatype Event = Event(id: string, vk: string, start: int, end: Option<int>)

  // A query's outcome: an error, or the row it found, if any.
  datatype Reply = Failed | Found(event: Option<Event>)

  datatype Entry = Entry(event: Option<Event>, cachedAt: int)

  predicate Covers(e: Event, t: int) {
    e.start <= t && (e.end.Some? ==> t < e.end.value)
  }

  predicate Candidate(table: set<Event>, vk: string, t: int, e: Event) {
    e in table && e.vk == vk && Covers(e, t)
  }

  /** What the query may answer: a covering row with the latest start (any of them on a tie), or nothing when none covers. */
  ghost predicate Answers(table: set<Event>, vk: string, t: int, r: Option<Event>) {
    match r
    case None => forall e :: e in table ==> !Candidate(table, vk, t, e)
    case Some(e) => Candidate(table, vk, t, e) && forall o :: o in table && Candidate(table, vk, t, o) ==> o.start <= e.start
  }

  /** Rows of one virtual key are never in force at the same time. */
  ghost predicate Disjoint(table: set<Event>) {
    forall e, o, t :: e in table && o in table && e.vk == o.vk && Covers(e, t) && Covers(o, t) ==> e == o
  }

  /** Rows of one key that are in force together start together, so neither is the later one. */
  ghost predicate StartTogether(table: set<Event>) {
    forall e, o, t :: e in table && o in table && e.vk == o.vk && Covers(e, t) && Covers(o, t) ==> e.start == o.start
  }

  /** Every cached event is a row of its key. */
  ghost predicate CacheOk(table: set<Event>, cache: map<string, Entry>) {
    forall vk :: vk in cache && cache[vk].event.Some? ==> cache[vk].event.value in table && cache[vk].event.value.vk == vk
  }

  /** A live entry that says "no event", which is served without looking at the event time. */
  predicate LiveMiss(cache: map<string, Entry>, vk: string, now: int, ttl: int) {
    vk in cache && now - cache[vk].cachedAt < ttl && cache[vk].event.None?
  }

  predicate LiveHit(cache: map<string, Entry>, vk: string, now: int, ttl: int, t: int) {
    vk in cache && now - cache[vk].cachedAt < ttl && cache[vk].event.Some? && Covers(cache[vk].event.value, t)
  }

  class Reader {
    const table: set<Event>
    const ttl: int
    const size: nat
    var cache: map<string, Entry>
    var recent: seq<string>  // keys, most recently used first

    ghost predicate Valid()
      reads this
    {
      && CacheOk(table, cache)
      && Kept(recent, cache.Keys)
      && |recent| <= size
    }

    constructor (table: set<Event>, size: nat, ttl: int)
      requires size > 0
      ensures Valid() && this.table == table && this.size == size && this.ttl == ttl && cache == map[]
    {
      this.table, this.size, this.ttl := table, size, ttl;
      cache, recent := map[], [];
    }

    /** Move a key to the front of the recency list. */
    method Touch(vk: string)
      requires Valid() && vk in cache
      modifies this`recent
      ensures Valid() && recent != [] && recent[0] == vk
    {
      var i := 0;
      while recent[i] != vk
        invariant 0 <= i < |recent| && forall j :: 0 <= j < i ==> recent[j] != vk
        decreases |recent| - i
      {
        i := i + 1;
        assert exists j :: 0 <= j < |recent| && recent[j] == vk;
      }
      ghost var before := recent;
      recent := [vk] + recent[..i] + recent[i + 1..];
    }

    method RemoveOldest()
      requires recent != [] && Kept(recent, cache.Keys)
      modifies this
      ensures Kept(recent, cache.Keys) && recent == old(recent)[..|old(recent)| - 1]
      ensures cache == old(cache) - {old(recent)[|old(recent)| - 1]}
    {
      cache := cache - {recent[|recent| - 1]};
      recent := recent[..|recent| - 1];
    }

    method Insert(vk: string, entry: Entry)
      requires Valid() && size > 0 && vk !in cache
      requires entry.event.Some? ==> entry.event.value in table && entry.event.value.vk == vk
      modifies this
      ensures Valid() && recent != [] && recent[0] == vk
      ensures |old(recent)| < size ==> cache == old(cache)[vk := entry]
      ensures |old(recent)| == size ==> cache == old(cache)[vk := entry] - {old(recent)[size - 1]} && old(recent)[size - 1] != vk
    {
      hide Kept, CacheOk;
      CacheOkSet(table, cache, vk, entry);
      KeptPush(recent, cache.Keys, vk);
      recent, cache := [vk] + recent, cache[vk := entry];
      assert cache.Keys == {vk} + old(cache).Keys;
      if |recent| > size {
        assert recent[|recent| - 1] == old(recent)[|old(recent)| - 1];
        CacheOkMinus(table, cache, recent[|recent| - 1]);
        RemoveOldest();
      }
    }

    /** Store an entry; the least recently used key goes when the cache is over its size. */
    method Add(vk: string, entry: Entry)
      requires Valid() && size > 0
      requires entry.event.Some? ==> entry.event.value in table && entry.event.value.vk == vk
      modifies this
      ensures Valid() && vk in cache && cache[vk] == entry
      ensures forall k :: k in cache && k != vk ==> k in old(cache) && cache[k] == old(cache)[k]
      ensures |old(recent)| < size || vk in old(cache) ==> cache == old(cache)[vk := entry]
    {
      hide Kept, CacheOk;
      if vk in cache {
        Touch(vk);
        CacheOkSet(table, cache, vk, entry);
        cache := cache[vk := entry];
        assert cache.Keys == old(cache).Keys;
      } else {
        Insert(vk, entry);
      }
    }

    /** FindByVirtualKeyAtTime; `inner` is what the query answers if it is asked, or its failure. */
    method Find(vk: string, t: int, now: int, inner: Reply) returns (r: Reply)
      requires Valid() && size > 0 && (inner.Found? ==> Answers(table, vk, t, inner.event))
      modifies this
      ensures Valid()
      ensures LiveMiss(old(cache), vk, now, ttl) ==> r == Found(None)
      ensures LiveHit(old(cache), vk, now, ttl, t) ==> r == Found(old(cache)[vk].event)
      ensures !LiveMiss(old(cache), vk, now, ttl) && !LiveHit(old(cache), vk, now, ttl, t) ==>
                r == inner && (inner.Found? ==> vk in cache && cache[vk] == Entry(inner.event, now))
      ensures LiveMiss(old(cache), vk, now, ttl) || LiveHit(old(cache), vk, now, ttl, t) || inner.Failed? ==> cache == old(cache)
      ensures r.Found? && r.event.Some? ==> Candidate(table, vk, t, r.event.value)
      ensures StartTogether(table) && r.Found? && r.event.Some? ==> Answers(table, vk, t, r.event)
      ensures Disjoint(table) && inner.Found? ==> (r == inner <==> !(LiveMiss(old(cache), vk, now, ttl) && inner.event.Some?))
    {
      if vk in cache {
        Touch(vk);
        var entry := cache[vk];
        if now - entry.cachedAt < ttl {
          if entry.event.None? {
            return Found(None);
          }
          if Covers(entry.event.value, t) {
            if inner.Found? {
              DisjointUnique(table, vk, t, entry.event.value, inner.event);
            }
            return Found(entry.event);
          }
        }
      }
      if inner.Failed? {
        return Failed;
      }
      Add(vk, Entry(inner.event, now));
      r := inner;
    }
  }

  /** The recency list names each cached key once. */
  ghost predicate Kept(recent: seq<string>, keys: set<string>) {
    && (forall k :: k in recent <==> k in keys)
    && (forall i, j :: 0 <= i < j < |recent| ==> recent[i] != recent[j])
  }

  lemma KeptPush(recent: seq<string>, keys: set<string>, k: string)
    requires Kept(recent, keys) && k !in keys
    ensures Kept([k] + recent, {k} + keys)
    ensures recent != [] ==> ([k] + recent)[|recent|] != k
  {
  }

  lemma CacheOkSet(table: set<Event>, cache: map<string, Entry>, vk: string, entry: Entry)
    requires CacheOk(table, cache) && (entry.event.Some? ==> entry.event.value in table && entry.event.value.vk == vk)
    ensures CacheOk(table, cache[vk := entry])
  {
  }

  lemma CacheOkMinus(table: set<Event>, cache: map<string, Entry>, vk: string)
    requires CacheOk(table, cache)
    ensures CacheOk(table, cache - {vk})
  {
  }

  lemma DisjointUnique(table: set<Event>, vk: string, t: int, e: Event, inner: Option<Event>)
    requires Candidate(table, vk, t, e) && Answers(table, vk, t, inner)
    ensures inner.Some? && (Disjoint(table) ==> inner == Some(e))
  {
  }

  /** A key's history in which each row ends when the next one starts. */
  predicate Chain(rows: seq<Event>) {
    && (forall i :: 0 <= i < |rows| - 1 ==> rows[i].end == Some(rows[i + 1].start))
    && (forall i, j :: 0 <= i < j < |rows| ==> rows[i].start <= rows[j].start && rows[i].vk == rows[j].vk)
  }

  /** Such a history is disjoint, and in force at every time from its start to its end. */
  lemma {:induction false} ChainCovers(rows: seq<Event>, t: int)
    requires Chain(rows) && rows != [] && rows[0].start <= t
    requires rows[|rows| - 1].end.Some? ==> t < rows[|rows| - 1].end.value
    ensures exists i :: 0 <= i < |rows| && Covers(rows[i], t)
    ensures forall i, j :: 0 <= i < j < |rows| ==> !(Covers(rows[i], t) && Covers(rows[j], t))
  {
    forall i, j | 0 <= i < j < |rows|
      ensures !(Covers(rows[i], t) && Covers(rows[j], t))
    {
      assert rows[i].end == Some(rows[i + 1].start);
      assert i + 1 < j ==> rows[i + 1].start <= rows[j].start;
    }
    var last := |rows| - 1;
    if last > 0 && t < rows[last].start {
      assert rows[last - 1].end == Some(rows[last].start);
      var front := rows[..last];
      assert Chain(front) by {
        forall i | 0 <= i < |front| - 1
          ensures front[i].end == Some(front[i + 1].start)
        {
          assert rows[i].end == Some(rows[i + 1].start);
        }
      }
      ChainCovers(front, t);
      var i :| 0 <= i < |front| && Covers(front[i], t);
      assert Covers(rows[i], t);
    } else {
      assert Covers(rows[last], t);
    }
  }

  // ---- whole runs ----

  // A lookup with the clock reading it saw; an eviction of any key, whatever the policy.
  datatype Step = Lookup(vk: string, t: int, now: int, inner: Option<Event>) | Evict(vk: string)

  function Served(cache: map<string, Entry>, ttl: int, s: Step): Option<Event>
    requires s.Lookup?
  {
    if LiveMiss(cache, s.vk, s.now, ttl) then None
    else if LiveHit(cache, s.vk, s.now, ttl, s.t) then cache[s.vk].event
    else s.inner
  }

  function After(cache: map<string, Entry>, ttl: int, s: Step): map<string, Entry> {
    match s
    case Evict(vk) => map k | k in cache && k != vk :: cache[k]
    case Lookup(vk, t, now, inner) =>
      if LiveMiss(cache, vk, now, ttl) || LiveHit(cache, vk, now, ttl, t) then cache
      else cache[vk := Entry(inner, now)]
  }

  function Cache(run: seq<Step>, ttl: int): map<string, Entry> {
    if run == [] then map[] else After(Cache(run[..|run| - 1], ttl), ttl, run[|run| - 1])
  }

  /** Every query of the run was answered by the table. */
  ghost predicate Honest(table: set<Event>, run: seq<Step>) {
    forall s :: s in run && s.Lookup? ==> Answers(table, s.vk, s.t, s.inner)
  }

  /** A cached "no event" was the query's answer for its key at some looked-up time. */
  ghost predicate MissOk(table: set<Event>, cache: map<string, Entry>, span: iset<int>) {
    forall vk :: vk in cache && cache[vk].event.None? ==> exists t :: t in span && Answers(table, vk, t, None)
  }

  lemma {:induction false} RunCacheOk(table: set<Event>, run: seq<Step>, ttl: int, span: iset<int>)
    requires Honest(table, run)
    ensures CacheOk(table, Cache(run, ttl)) && (Within(run, span) ==> MissOk(table, Cache(run, ttl), span))
  {
    if run != [] {
      var front, s := run[..|run| - 1], run[|run| - 1];
      assert s in run && forall x :: x in front ==> x in run;
      RunCacheOk(table, front, ttl, span);
    }
  }

  /** What a run serves at step i is what the query could have answered there and then. */
  ghost predicate ServesAnswer(table: set<Event>, run: seq<Step>, ttl: int, i: nat)
    requires i < |run| && run[i].Lookup?
  {
    Answers(table, run[i].vk, run[i].t, Served(Cache(run[..i], ttl), ttl, run[i]))
  }

  /** Every event a run serves is an answer of the query. */
  ghost predicate Sound(table: set<Event>, run: seq<Step>, ttl: int) {
    forall i :: 0 <= i < |run| && run[i].Lookup? && Served(Cache(run[..i], ttl), ttl, run[i]).Some? ==> ServesAnswer(table, run, ttl, i)
  }

  /** Everything a run serves is an answer of the query. */
  ghost predicate Equivalent(table: set<Event>, run: seq<Step>, ttl: int) {
    forall i :: 0 <= i < |run| && run[i].Lookup? ==> ServesAnswer(table, run, ttl, i)
  }

  /** Over these event times each key is in force throughout or not at all. */
  ghost predicate Steady(table: set<Event>, span: iset<int>) {
    forall vk, t, u :: t in span && u in span && InForce(table, vk, t) ==> InForce(table, vk, u)
  }

  ghost predicate Within(run: seq<Step>, span: iset<int>) {
    forall s :: s in run && s.Lookup? ==> s.t in span
  }

  ghost predicate InForce(table: set<Event>, vk: string, t: int) {
    exists e :: Candidate(table, vk, t, e)
  }

  /** An event is served only if it covers the time, a miss only if there was one; so both are answers under these conditions. */
  lemma StepServesAnswer(table: set<Event>, run: seq<Step>, ttl: int, i: nat, span: iset<int>)
    requires StartTogether(table) && Honest(table, run) && i < |run| && run[i].Lookup?
    ensures Served(Cache(run[..i], ttl), ttl, run[i]).Some? || (Within(run, span) && Steady(table, span)) ==>
              ServesAnswer(table, run, ttl, i)
  {
    var s, cache := run[i], Cache(run[..i], ttl);
    assert s in run && forall x :: x in run[..i] ==> x in run;
    RunCacheOk(table, run[..i], ttl, span);
    hide Cache;
    if LiveMiss(cache, s.vk, s.now, ttl) && Within(run, span) && Steady(table, span) {
      var u :| u in span && Answers(table, s.vk, u, None);
      assert !InForce(table, s.vk, u);
      assert !InForce(table, s.vk, s.t);
    }
  }

  /** A second lookup of a key, after the first was answered for time t, is served that answer if it covers the new time. */
  lemma TwoLookups(table: set<Event>, ttl: int, vk: string, t: int, first: Option<Event>, u: int, second: Option<Event>)
    returns (run: seq<Step>)
    requires Answers(table, vk, t, first) && Answers(table, vk, u, second) && (first.Some? ==> Covers(first.value, u))
    ensures Honest(table, run) && |run| == 2 && run[1] == Lookup(vk, u, ttl - 1, second) && Within(run, iset{t, u})
    ensures Served(Cache(run[..1], ttl), ttl, run[1]) == first
  {
    var s0 := Lookup(vk, t, 0, first);
    run := [s0, Lookup(vk, u, ttl - 1, second)];
    assert run[..1] == [s0] && [s0][..0] == [];
    assert Cache([s0], ttl) == map[vk := Entry(first, 0)];
  }

  /** If two rows of a key with different starts overlap, two lookups suffice to be served the wrong one. */
  lemma OverlapUnsound(table: set<Event>, ttl: int, e: Event, o: Event, t: int) returns (run: seq<Step>)
    requires Candidate(table, e.vk, t, e) && Candidate(table, e.vk, t, o) && e.start < o.start
    ensures Honest(table, run) && !Sound(table, run, ttl)
  {
    run := TwoLookups(table, ttl, e.vk, e.start, Some(e), o.start, Some(o));
    assert Candidate(table, e.vk, o.start, o);
    assert !ServesAnswer(table, run, ttl, 1);
  }

  /**
   The cache is sound in every run, whatever the clock readings and evictions, exactly when no two rows of a key with
   different starts are ever in force together.
   */
  lemma SoundIff(table: set<Event>, ttl: int)
    ensures (forall run :: Honest(table, run) ==> Sound(table, run, ttl)) <==> StartTogether(table)
  {
    hide Honest, Cache, Served, ServesAnswer;
    if StartTogether(table) {
      forall run: seq<Step>, i | Honest(table, run) && 0 <= i < |run| && run[i].Lookup? && Served(Cache(run[..i], ttl), ttl, run[i]).Some?
        ensures ServesAnswer(table, run, ttl, i)
      {
        StepServesAnswer(table, run, ttl, i, iset{});
      }
    } else {
      var e, o, t :| e in table && o in table && e.vk == o.vk && Covers(e, t) && Covers(o, t) && e.start != o.start;
      var run;
      if e.start < o.start {
        run := OverlapUnsound(table, ttl, e, o, t);
      } else {
        run := OverlapUnsound(table, ttl, o, e, t);
      }
    }
  }

  /**
   Then it is equivalent to the query over lookups at given event times, served misses included, exactly when no key is in
   force at some of those times only.
   */
  lemma EquivalentIff(table: set<Event>, ttl: int, span: iset<int>)
    requires StartTogether(table)
    ensures (forall run :: Honest(table, run) && Within(run, span) ==> Equivalent(table, run, ttl)) <==> Steady(table, span)
  {
    hide Honest, Cache, Served, ServesAnswer, Within;
    if Steady(table, span) {
      forall run: seq<Step>, i | Honest(table, run) && Within(run, span) && 0 <= i < |run| && run[i].Lookup?
        ensures ServesAnswer(table, run, ttl, i)
      {
        StepServesAnswer(table, run, ttl, i, span);
      }
    } else {
      var vk, t, u :| t in span && u in span && InForce(table, vk, t) && !InForce(table, vk, u);
      MissIgnoresTime(table, ttl, vk, t, u, span);
    }
  }

  /** The cached miss ignores the event time: a lookup at a time without a row hides the row in force at another time. */
  lemma MissIgnoresTime(table: set<Event>, ttl: int, vk: string, t: int, u: int, span: iset<int>)
    requires StartTogether(table) && t in span && u in span && InForce(table, vk, t) && !InForce(table, vk, u)
    ensures exists run :: Honest(table, run) && Within(run, span) && !Equivalent(table, run, ttl)
  {
    var e :| Candidate(table, vk, t, e);
    var run := TwoLookups(table, ttl, vk, u, None, t, Some(e));
    assert !ServesAnswer(table, run, ttl, 1);
  }

  /** The lookup is served something else than the query's reply only from an answer to an earlier one that is young enough. */
  ghost predicate FromEarlier(run: seq<Step>, ttl: int, i: nat)
    requires i < |run| && run[i].Lookup?
  {
    exists j :: 0 <= j < i && run[j].Lookup? && run[j].vk == run[i].vk && run[i].now - run[j].now < ttl
      && Served(Cache(run[..i], ttl), ttl, run[i]) == run[j].inner
  }

  lemma {:induction false} EntryFrom(run: seq<Step>, ttl: int, vk: string) returns (j: nat)
    requires vk in Cache(run, ttl)
    ensures j < |run| && run[j].Lookup? && run[j].vk == vk && Cache(run, ttl)[vk] == Entry(run[j].inner, run[j].now)
  {
    var n := |run| - 1;
    var before, s := Cache(run[..n], ttl), run[n];
    if s.Lookup? && s.vk == vk && !LiveMiss(before, vk, s.now, ttl) && !LiveHit(before, vk, s.now, ttl, s.t) {
      j := n;
    } else {
      j := EntryFrom(run[..n], ttl, vk);
    }
  }

  /**
   The time-to-live over whole runs: a reply that is not the query's own was the query's reply to an earlier lookup of the
   key, less than the time-to-live ago; and a served event is in force at the looked-up time.
   */
  lemma ServedYoung(run: seq<Step>, ttl: int, i: nat)
    requires i < |run| && run[i].Lookup?
    ensures var served := Served(Cache(run[..i], ttl), ttl, run[i]);
            && (served == run[i].inner || FromEarlier(run, ttl, i))
            && (served.Some? && served != run[i].inner ==>
                  served.value.start <= run[i].t && (served.value.end.Some? ==> run[i].t < served.value.end.value))
  {
    var s, cache := run[i], Cache(run[..i], ttl);
    if LiveMiss(cache, s.vk, s.now, ttl) || LiveHit(cache, s.vk, s.now, ttl, s.t) {
      var j := EntryFrom(run[..i], ttl, s.vk);
      assert run[..i][j] == run[j];
    }
  }

  /** A lookup that asked the query is served again exactly while it is young and, if it found an event, that event is in force. */
  lemma ServedAgainIff(run: seq<Step>, ttl: int, s: Step, u: Step)
    requires s.Lookup? && u.Lookup? && u.vk == s.vk && s.vk !in Cache(run, ttl)
    ensures var again := u.now - s.now < ttl
              && (s.inner.Some? ==> s.inner.value.start <= u.t && (s.inner.value.end.Some? ==> u.t < s.inner.value.end.value));
            Served(Cache(run + [s], ttl), ttl, u) == if again then s.inner else u.inner
  {
    assert (run + [s])[..|run|] == run;
  }

  /** An evicted key is asked for again, and the other keys keep their entries. */
  lemma EvictedIsAsked(run: seq<Step>, ttl: int, vk: string, u: Step)
    requires u.Lookup?
    ensures var cache, after := Cache(run, ttl), Cache(run + [Evict(vk)], ttl);
            && (u.vk == vk ==> Served(after, ttl, u) == u.inner)
            && (forall k :: k != vk ==> (k in after <==> k in cache) && (k in cache ==> after[k] == cache[k]))
  {
    assert (run + [Evict(vk)])[..|run|] == run;
  }
}
