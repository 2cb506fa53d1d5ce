/**
 * `timed_lru_cache`: a bounded least-recently-used cache that is emptied when its window ends. The
 * clock is read once to check the window and once more to set the next one.
 */
module TimedCache {
  import opened Prelude

  datatype Entry<K, V> = Entry(key: K, value: V)

  /** The cached entries, least recently used first, and the end of the current window. */
  datatype Cache<K, V> = Cache(entries: seq<Entry<K, V>>, expiration: int)

  /**
   * One call: its key, the two clock readings, and what the wrapped function yields if it runs at
   * `at` (`None` when it raises).
   */
  datatype Call<K, V> = Call(key: K, check: int, reset: int, at: int, produced: Option<V>)

  /** The position of `k`, or the length when it is not cached. */
  function Position<K(==), V>(es: seq<Entry<K, V>>, k: K): (i: nat)
    ensures i <= |es|
    ensures i < |es| ==> es[i].key == k
    ensures forall j | 0 <= j < i :: es[j].key != k
  {
    if es == [] || es[0].key == k then 0 else 1 + Position(es[1..], k)
  }

  function Opened<K, V>(c: Cache<K, V>, call: Call<K, V>, lifetime: int): Cache<K, V> {
    if call.check >= c.expiration then Cache([], call.reset + lifetime) else c
  }

  predicate Hits<K(==), V>(c: Cache<K, V>, call: Call<K, V>, lifetime: int) {
    Position(Opened(c, call, lifetime).entries, call.key) < |Opened(c, call, lifetime).entries|
  }

  function Answer<K(==), V>(c: Cache<K, V>, call: Call<K, V>, lifetime: int): Option<V> {
    var es := Opened(c, call, lifetime).entries;
    var i := Position(es, call.key);
    if i < |es| then Some(es[i].value) else call.produced
  }

  /** A hit becomes the most recent entry. */
  function Touched<K, V>(es: seq<Entry<K, V>>, i: nat): seq<Entry<K, V>>
    requires i < |es|
  {
    es[..i] + es[i + 1..] + [es[i]]
  }

  /** A new entry pushes the least recent one out of a full cache. */
  function Stored<K, V>(es: seq<Entry<K, V>>, e: Entry<K, V>, maxsize: nat): seq<Entry<K, V>> {
    if maxsize == 0 then es
    else if |es| >= maxsize then (if es == [] then [] else es[1..]) + [e]
    else es + [e]
  }

  function After<K(==), V>(c: Cache<K, V>, call: Call<K, V>, lifetime: int, maxsize: nat): Cache<K, V> {
    var o := Opened(c, call, lifetime);
    var i := Position(o.entries, call.key);
    if i < |o.entries| then o.(entries := Touched(o.entries, i))
    else if call.produced.Some? then o.(entries := Stored(o.entries, Entry(call.key, call.produced.value), maxsize))
    else o
  }

  /** The decorated function. */
  class TimedLruCache<K(==), V> {
    const lifetime: int
    const maxsize: nat
    var entries: seq<Entry<K, V>>
    var expiration: int

    constructor (lifetime: int, maxsize: nat, now: int)
      ensures this.lifetime == lifetime && this.maxsize == maxsize
      ensures Contents() == Cache([], now + lifetime)
    {
      this.lifetime, this.maxsize := lifetime, maxsize;
      entries, expiration := [], now + lifetime;
    }

    function Contents(): Cache<K, V>
      reads this
    {
      Cache(entries, expiration)
    }

    method Invoke(call: Call<K, V>) returns (answer: Option<V>, called: bool)
      modifies this
      ensures Contents() == After(old(Contents()), call, lifetime, maxsize)
      ensures answer == Answer(old(Contents()), call, lifetime)
      ensures called == !Hits(old(Contents()), call, lifetime)
    {
      if call.check >= expiration {
        entries := [];
        expiration := call.reset + lifetime;
      }
      var i := Position(entries, call.key);
      if i < |entries| {
        answer, called := Some(entries[i].value), false;
        entries := Touched(entries, i);
      } else {
        answer, called := call.produced, true;
        if answer.Some? {
          entries := Stored(entries, Entry(call.key, answer.value), maxsize);
        }
      }
    }
  }

  // Whole histories of calls

  /** A history: the calls made on one cache and its contents before the first and after each of them. */
  datatype History<K, V> = History(calls: seq<Call<K, V>>, states: seq<Cache<K, V>>, lifetime: int, maxsize: nat)

  ghost predicate Moves<K, V>(h: History<K, V>, i: nat) {
    i < |h.calls| && i + 1 < |h.states| && h.states[i + 1] == After(h.states[i], h.calls[i], h.lifetime, h.maxsize)
  }

  /** The history starts from a freshly decorated function and follows it call by call. */
  ghost predicate Faithful<K, V>(h: History<K, V>) {
    && |h.states| == |h.calls| + 1 && h.states[0].entries == []
    && (forall i: nat {:trigger Moves(h, i)} | i < |h.calls| :: Moves(h, i))
  }

  /** Clock readings never go back: not within a call, between calls, or since decoration. */
  ghost predicate Timely<K, V>(h: History<K, V>) {
    && h.states != []
    && (forall i | 0 <= i < |h.calls| :: h.calls[i].check <= h.calls[i].reset <= h.calls[i].at)
    && (forall i, j | 0 <= i < j < |h.calls| :: h.calls[i].at <= h.calls[j].check)
    && (forall i | 0 <= i < |h.calls| :: h.states[0].expiration - h.lifetime <= h.calls[i].check)
  }

  /** The instant the window in force before call `n` began. */
  function WindowStart<K, V>(h: History<K, V>, n: nat): int
    requires n < |h.states|
  {
    h.states[n].expiration - h.lifetime
  }

  /** Call `i`, before `n`, ran the function for `k` and obtained `v`, not before `since`. */
  ghost predicate Computed<K, V>(h: History<K, V>, i: nat, n: nat, k: K, v: V, since: int) {
    && i < n && i < |h.calls| && i < |h.states| && !Hits(h.states[i], h.calls[i], h.lifetime)
    && h.calls[i].key == k && h.calls[i].produced == Some(v) && since <= h.calls[i].at
  }

  ghost predicate Supported<K, V>(h: History<K, V>, n: nat, k: K, v: V, since: int) {
    exists i: nat :: Computed(h, i, n, k, v, since)
  }

  ghost predicate Backed<K, V>(h: History<K, V>, n: nat)
    requires n < |h.states|
  {
    forall e | e in h.states[n].entries :: Supported(h, n, e.key, e.value, WindowStart(h, n))
  }

  lemma AfterHoldsOldOrNew<K, V>(c: Cache<K, V>, call: Call<K, V>, lifetime: int, maxsize: nat, e: Entry<K, V>)
    requires e in After(c, call, lifetime, maxsize).entries
    ensures e in Opened(c, call, lifetime).entries
      || (!Hits(c, call, lifetime) && e.key == call.key && call.produced == Some(e.value))
  {
  }

  lemma StepIsBacked<K, V>(h: History<K, V>, n: nat)
    requires Faithful(h) && Timely(h) && n < |h.calls| && Backed(h, n)
    requires WindowStart(h, n) <= h.calls[n].check
    ensures Backed(h, n + 1)
  {
    assert Moves(h, n);
    forall e | e in h.states[n + 1].entries ensures Supported(h, n + 1, e.key, e.value, WindowStart(h, n + 1)) {
      AfterHoldsOldOrNew(h.states[n], h.calls[n], h.lifetime, h.maxsize, e);
      if e in Opened(h.states[n], h.calls[n], h.lifetime).entries {
        assert Supported(h, n, e.key, e.value, WindowStart(h, n));
        var i: nat :| Computed(h, i, n, e.key, e.value, WindowStart(h, n));
        assert Computed(h, i, n + 1, e.key, e.value, WindowStart(h, n + 1));
      } else {
        assert Computed(h, n, n + 1, e.key, e.value, WindowStart(h, n + 1));
      }
    }
  }

  /** Every cached value was computed by an earlier call inside the current window. */
  lemma {:induction false} EntriesAreBacked<K, V>(h: History<K, V>, n: nat)
    requires Faithful(h) && Timely(h) && n <= |h.calls|
    ensures Backed(h, n)
    ensures forall i | n <= i < |h.calls| :: WindowStart(h, n) <= h.calls[i].check
  {
    if n > 0 {
      EntriesAreBacked(h, n - 1);
      StepIsBacked(h, n - 1);
      assert Moves(h, n - 1);
    }
  }

  /**
   * Over any history with a nondecreasing clock, a value returned without running the function was
   * computed by an earlier call less than the lifetime before this call's check, and not before the
   * current window began, although the window is checked and set with separate readings.
   */
  lemma AnswersAreFresh<K, V>(h: History<K, V>, n: nat)
    requires Faithful(h) && Timely(h) && n < |h.calls|
    requires Hits(h.states[n], h.calls[n], h.lifetime)
    ensures exists i: nat, v ::
      && Computed(h, i, n, h.calls[n].key, v, WindowStart(h, n))
      && Answer(h.states[n], h.calls[n], h.lifetime) == Some(v)
      && h.calls[n].check - h.calls[i].at < h.lifetime
  {
    EntriesAreBacked(h, n);
    var es := h.states[n].entries;
    var e := es[Position(es, h.calls[n].key)];
    assert Supported(h, n, e.key, e.value, WindowStart(h, n));
    var i: nat :| Computed(h, i, n, e.key, e.value, WindowStart(h, n));
    assert Computed(h, i, n, h.calls[n].key, e.value, WindowStart(h, n));
  }

  /**
   * If the wrapped function has kept its value at this key since the window began, a cached call
   * answers exactly what the plain function would.
   */
  lemma AgreesWhileUnchanged<K(!new), V>(h: History<K, V>, n: nat, f: (K, int) -> Option<V>)
    requires Faithful(h) && Timely(h) && n < |h.calls|
    requires forall i | 0 <= i < |h.calls| :: h.calls[i].produced == f(h.calls[i].key, h.calls[i].at)
    requires forall t | WindowStart(h, n) <= t <= h.calls[n].at :: f(h.calls[n].key, t) == f(h.calls[n].key, h.calls[n].at)
    ensures Answer(h.states[n], h.calls[n], h.lifetime) == f(h.calls[n].key, h.calls[n].at)
  {
    if Hits(h.states[n], h.calls[n], h.lifetime) {
      AnswersAreFresh(h, n);
      var i: nat, v :| Computed(h, i, n, h.calls[n].key, v, WindowStart(h, n))
        && Answer(h.states[n], h.calls[n], h.lifetime) == Some(v);
      assert h.calls[i].at <= h.calls[n].check;
    }
  }

  ghost predicate OneEach<K, V>(es: seq<Entry<K, V>>) {
    forall i, j | 0 <= i < j < |es| :: es[i].key != es[j].key
  }

  lemma StepIsBounded<K, V>(c: Cache<K, V>, call: Call<K, V>, lifetime: int, maxsize: nat)
    requires |c.entries| <= maxsize && OneEach(c.entries)
    ensures |After(c, call, lifetime, maxsize).entries| <= maxsize && OneEach(After(c, call, lifetime, maxsize).entries)
  {
  }

  /** The cache never holds more than `maxsize` entries, and one per key. */
  lemma {:induction false} CacheIsBounded<K, V>(h: History<K, V>, n: nat)
    requires Faithful(h) && n <= |h.calls|
    ensures |h.states[n].entries| <= h.maxsize && OneEach(h.states[n].entries)
  {
    if n > 0 {
      CacheIsBounded(h, n - 1);
      StepIsBounded(h.states[n - 1], h.calls[n - 1], h.lifetime, h.maxsize);
      assert Moves(h, n - 1);
    }
  }

  ghost predicate RecentAt<K, V>(es: seq<Entry<K, V>>, k: K, others: set<K>, p: int) {
    0 <= p < |es| && es[p].key == k && forall q | p < q < |es| :: es[q].key in others
  }

  /** `k` is cached and everything used since is a key of `others`. */
  ghost predicate Recent<K, V>(es: seq<Entry<K, V>>, k: K, others: set<K>) {
    exists p :: RecentAt(es, k, others, p)
  }

  lemma {:induction false} DistinctKeysFit<K, V>(es: seq<Entry<K, V>>, keys: set<K>)
    requires OneEach(es) && forall q | 0 <= q < |es| :: es[q].key in keys
    ensures |es| <= |keys|
    decreases |es|
  {
    if es != [] {
      DistinctKeysFit(es[1..], keys - {es[0].key});
    }
  }

  lemma UsedIsRecent<K, V>(c: Cache<K, V>, call: Call<K, V>, lifetime: int, maxsize: nat, others: set<K>)
    requires maxsize > 0 && Answer(c, call, lifetime).Some?
    ensures Recent(After(c, call, lifetime, maxsize).entries, call.key, others)
  {
    var after := After(c, call, lifetime, maxsize).entries;
    assert RecentAt(after, call.key, others, |after| - 1);
  }

  lemma RecentSurvives<K, V>(c: Cache<K, V>, call: Call<K, V>, lifetime: int, maxsize: nat, k: K, others: set<K>)
    requires OneEach(c.entries) && |c.entries| <= maxsize && Recent(c.entries, k, others)
    requires call.check < c.expiration && k !in others && call.key != k
    requires |others + {call.key}| < maxsize
    ensures Recent(After(c, call, lifetime, maxsize).entries, k, others + {call.key})
  {
    var es := c.entries;
    var p :| RecentAt(es, k, others, p);
    var after := After(c, call, lifetime, maxsize).entries;
    var i := Position(es, call.key);
    if i < |es| {
      assert RecentAt(after, k, others + {call.key}, if i < p then p - 1 else p);
    } else if call.produced.Some? {
      if |es| >= maxsize && p == 0 {
        DistinctKeysFit(es[1..] + [Entry(call.key, call.produced.value)], others + {call.key});
        assert false;
      }
      assert RecentAt(after, k, others + {call.key}, if |es| >= maxsize then p - 1 else p);
    } else {
      assert RecentAt(after, k, others + {call.key}, p);
    }
  }

  lemma RecentStep<K, V>(c: Cache<K, V>, call: Call<K, V>, lifetime: int, maxsize: nat, k: K, others: set<K>)
    requires OneEach(c.entries) && |c.entries| <= maxsize && Recent(c.entries, k, others)
    requires call.check < c.expiration && k !in others
    requires |others + ({call.key} - {k})| < maxsize
    ensures Recent(After(c, call, lifetime, maxsize).entries, k, others + ({call.key} - {k}))
  {
    if call.key == k {
      var p :| RecentAt(c.entries, k, others, p);
      UsedIsRecent(c, call, lifetime, maxsize, others + ({call.key} - {k}));
    } else {
      assert {call.key} - {k} == {call.key};
      RecentSurvives(c, call, lifetime, maxsize, k, others);
    }
  }

  /** The keys of the calls from `i` up to `n`. */
  ghost function KeysUsed<K, V>(h: History<K, V>, i: nat, n: nat): set<K>
    requires i <= n <= |h.calls|
  {
    set j | i <= j < n :: h.calls[j].key
  }

  /** No call from `i` up to `n` finds its window over. */
  ghost predicate SameWindow<K, V>(h: History<K, V>, i: nat, n: nat)
    requires n <= |h.calls| && |h.states| == |h.calls| + 1
  {
    forall j | i <= j < n :: h.calls[j].check < h.states[j].expiration
  }

  lemma SubsetIsSmaller<K>(a: set<K>, b: set<K>)
    requires a <= b
    ensures |a| <= |b|
  {
    assert b == a + (b - a);
  }

  lemma KeysUsedGrow<K, V>(h: History<K, V>, i: nat, n: nat, k: K)
    requires i < n <= |h.calls|
    ensures KeysUsed(h, i, n) - {k} == (KeysUsed(h, i, n - 1) - {k}) + ({h.calls[n - 1].key} - {k})
    ensures |KeysUsed(h, i, n - 1) - {k}| <= |KeysUsed(h, i, n) - {k}|
  {
    assert KeysUsed(h, i, n) == KeysUsed(h, i, n - 1) + {h.calls[n - 1].key};
    SubsetIsSmaller(KeysUsed(h, i, n - 1) - {k}, KeysUsed(h, i, n) - {k});
  }

  /**
   * One call in full: at or after the end of the window all entries are dropped and the next window
   * ends a lifetime after the second reading. A cached key answers its value and becomes the most
   * recent; any other runs the function, and a value it yields is stored last, in place of the
   * least recent entry of a full cache.
   */
  lemma CallOutcomes<K, V>(c: Cache<K, V>, call: Call<K, V>, lifetime: int, maxsize: nat, p: nat)
    requires OneEach(c.entries) && |c.entries| <= maxsize
    ensures var es := if call.check < c.expiration then c.entries else [];
      var after := After(c, call, lifetime, maxsize);
      var cached := exists i :: 0 <= i < |es| && es[i].key == call.key;
      && after.expiration == (if call.check < c.expiration then c.expiration else call.reset + lifetime)
      && (Hits(c, call, lifetime) <==> cached)
      && (p < |es| && es[p].key == call.key ==>
            Answer(c, call, lifetime) == Some(es[p].value) && after.entries == es[..p] + es[p + 1..] + [es[p]])
      && (!cached ==> Answer(c, call, lifetime) == call.produced)
      && (!cached && (call.produced == None || maxsize == 0) ==> after.entries == es)
      && (!cached && call.produced != None && maxsize > 0 ==>
            after.entries == (if |es| == maxsize then es[1..] else es) + [Entry(call.key, call.produced.value)])
  {
  }

  lemma RecentThroughCall<K, V>(h: History<K, V>, i: nat, n: nat, k: K)
    requires Faithful(h) && i < n <= |h.calls| && SameWindow(h, i, n)
    requires |KeysUsed(h, i, n) - {k}| < h.maxsize
    requires Recent(h.states[n - 1].entries, k, KeysUsed(h, i, n - 1) - {k})
    ensures Recent(h.states[n].entries, k, KeysUsed(h, i, n) - {k})
  {
    assert Moves(h, n - 1);
    KeysUsedGrow(h, i, n, k);
    CacheIsBounded(h, n - 1);
    RecentStep(h.states[n - 1], h.calls[n - 1], h.lifetime, h.maxsize, k, KeysUsed(h, i, n - 1) - {k});
  }

  /**
   * Least recently used: after a call that returned a value for its key, the key stays cached while
   * the window lasts and fewer than `maxsize` other keys were used since.
   */
  lemma {:induction false} RecentlyUsedStays<K, V>(h: History<K, V>, i: nat, n: nat)
    requires Faithful(h) && i < n <= |h.calls|
    requires Answer(h.states[i], h.calls[i], h.lifetime).Some? && SameWindow(h, i + 1, n)
    requires |KeysUsed(h, i + 1, n) - {h.calls[i].key}| < h.maxsize
    ensures Recent(h.states[n].entries, h.calls[i].key, KeysUsed(h, i + 1, n) - {h.calls[i].key})
    decreases n
  {
    hide Recent, After, Answer, Timely;
    var k := h.calls[i].key;
    if n == i + 1 {
      assert Moves(h, i);
      UsedIsRecent(h.states[i], h.calls[i], h.lifetime, h.maxsize, KeysUsed(h, i + 1, n) - {k});
    } else {
      KeysUsedGrow(h, i + 1, n, k);
      RecentlyUsedStays(h, i, n - 1);
      RecentThroughCall(h, i + 1, n, k);
    }
  }

  /**
   * With at most `maxsize` distinct keys in play, the wrapped function returns at most once per key
   * and window: after a call that returned a value, every later call for that key in the same window
   * is answered from the cache.
   */
  lemma OncePerWindow<K, V>(h: History<K, V>, i: nat, n: nat)
    requires Faithful(h) && i < n < |h.calls| && h.calls[n].key == h.calls[i].key
    requires |KeysUsed(h, i, n)| <= h.maxsize && SameWindow(h, i + 1, n + 1)
    requires Answer(h.states[i], h.calls[i], h.lifetime).Some?
    ensures Hits(h.states[n], h.calls[n], h.lifetime)
  {
    var k := h.calls[i].key;
    assert k in KeysUsed(h, i, n);
    SubsetIsSmaller(KeysUsed(h, i + 1, n) - {k}, KeysUsed(h, i, n) - {k});
    RecentlyUsedStays(h, i, n);
    var p :| RecentAt(h.states[n].entries, k, KeysUsed(h, i + 1, n) - {k}, p);
  }
}
