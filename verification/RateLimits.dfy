/** The HTTP boundary's fixed-window limiter. Time is an integer and never runs backwards. */
module RateLimits {
  import opened Domain


  /** The identity a limit is kept for, numbered. */
  type Key = nat

  datatype Entry = Entry(start: int, count: nat)

  const MAX_ENTRIES: nat := 65536

  /** What a scan of all entries would keep: the windows that are still open. */
  function Scan(entries: map<Key, Entry>, now: int, window: int): map<Key, Entry> {
    map k | k in entries && now < entries[k].start + window :: entries[k]
  }

  /** One decision, described without any expiry list. */
  function Decide(entries: map<Key, Entry>, limit: nat, window: int, key: Key, now: int): (map<Key, Entry>, bool) {
    var live := Scan(entries, now, window);
    if key !in live then
      if |live| >= MAX_ENTRIES then (live, false) else (live[key := Entry(now, 1)], true)
    else if live[key].count >= limit then (live, false)
    else (live[key := Entry(live[key].start, live[key].count + 1)], true)
  }

  /** The list names every entry once, oldest window first. */
  ghost predicate ListOk(entries: map<Key, Entry>, expirations: seq<Key>) {
    && (forall k :: k in entries <==> k in expirations)
    && (forall i, j :: 0 <= i < j < |expirations| ==> expirations[i] != expirations[j])
    && forall i, j :: 0 <= i < j < |expirations| && expirations[i] in entries && expirations[j] in entries ==>
      entries[expirations[i]].start <= entries[expirations[j]].start
  }

  /** Once the front of the list is open, everything is. */
  lemma FrontOpenMeansAllOpen(entries: map<Key, Entry>, expirations: seq<Key>, now: int, window: int)
    requires ListOk(entries, expirations)
    requires expirations == [] || (expirations[0] in entries && now < entries[expirations[0]].start + window)
    ensures Scan(entries, now, window) == entries
  {
    forall k | k in entries
      ensures now < entries[k].start + window
    {
      var i :| 0 <= i < |expirations| && expirations[i] == k;
      if i > 0 {
        assert expirations[0] in entries;
      }
    }
  }

  lemma DropFront(entries: map<Key, Entry>, expirations: seq<Key>, now: int, window: int)
    requires ListOk(entries, expirations) && expirations != [] && expirations[0] in entries
    requires !(now < entries[expirations[0]].start + window)
    ensures ListOk(entries - {expirations[0]}, expirations[1..])
    ensures Scan(entries - {expirations[0]}, now, window) == Scan(entries, now, window)
  {
    hide Scan;
    DropExpired(entries, expirations[0], now, window);
    var rest := expirations[1..];
    forall k
      ensures k in rest <==> k in expirations && k != expirations[0]
    {
      TailHolds(expirations, k);
    }
    forall i, j | 0 <= i < j < |rest|
      ensures rest[i] != rest[j] && entries[rest[i]].start <= entries[rest[j]].start
    {
      assert rest[i] == expirations[i + 1] && rest[j] == expirations[j + 1];
    }
  }

  lemma DropExpired(entries: map<Key, Entry>, key: Key, now: int, window: int)
    requires key in entries && !(now < entries[key].start + window)
    ensures Scan(entries - {key}, now, window) == Scan(entries, now, window)
  {
  }

  lemma TailHolds(keys: seq<Key>, k: Key)
    requires keys != [] && forall i, j :: 0 <= i < j < |keys| ==> keys[i] != keys[j]
    ensures k in keys[1..] <==> k in keys && k != keys[0]
  {
    if k in keys && k != keys[0] {
      var i :| 0 <= i < |keys| && keys[i] == k;
      assert keys[1..][i - 1] == k;
    }
  }

  lemma PushBack(entries: map<Key, Entry>, expirations: seq<Key>, key: Key, now: int)
    requires ListOk(entries, expirations) && key !in entries
    requires forall k :: k in entries ==> entries[k].start <= now
    ensures ListOk(entries[key := Entry(now, 1)], expirations + [key])
  {
    var after, list := entries[key := Entry(now, 1)], expirations + [key];
    forall k
      ensures k in after <==> k in list
    {
      assert k in list <==> k in expirations || k == key;
    }
    assert forall i :: 0 <= i < |expirations| ==> expirations[i] in entries;
  }

  /** The wait that a refusal names ends with the key's own window, or with the oldest one of a full table. */
  ghost predicate Blocks(entries: map<Key, Entry>, window: int, key: Key, now: int, retryAfter: int) {
    exists k ::
      && k in entries && retryAfter == entries[k].start + window - now
      && (if key in entries then k == key else forall x :: x in entries ==> entries[k].start <= entries[x].start)
  }

  class FixedWindowLimiter {
    const limit: nat
    const window: int
    var entries: map<Key, Entry>
    var expirations: seq<Key>
    ghost var clock: int

    ghost predicate Valid()
      reads this
    {
      && limit > 0 && window > 0 && ListOk(entries, expirations)
      && |entries| <= MAX_ENTRIES
      && (forall k :: k in entries ==> entries[k].start <= clock && 0 < entries[k].count <= limit)
    }

    constructor (limit: nat, window: int, ghost now: int)
      requires limit > 0 && window > 0
      ensures Valid() && entries == map[] && clock == now && this.limit == limit && this.window == window
    {
      this.limit, this.window := limit, window;
      entries, expirations, clock := map[], [], now;
    }

    /** Drops expired windows from the front of the list, as a full scan would. */
    method Purge(now: int)
      requires Valid() && clock <= now
      modifies this`entries, this`expirations
      ensures Valid() && entries == Scan(old(entries), now, window)
    {
      while expirations != []
        invariant ListOk(entries, expirations) && Scan(entries, now, window) == Scan(old(entries), now, window)
        invariant |entries| <= MAX_ENTRIES
        invariant forall k :: k in entries ==> k in old(entries) && entries[k] == old(entries)[k]
        decreases |expirations|
      {
        assert expirations[0] in entries;
        if now < entries[expirations[0]].start + window {
          break;
        }
        DropFront(entries, expirations, now, window);
        RemoveShrinks(entries, expirations[0]);
        entries := entries - {expirations[0]};
        expirations := expirations[1..];
      }
      FrontOpenMeansAllOpen(entries, expirations, now, window);
    }

    lemma RemoveShrinks(entries: map<Key, Entry>, key: Key)
      requires key in entries
      ensures |entries - {key}| < |entries|
    {
      assert (entries - {key}).Keys == entries.Keys - {key};
    }

    /** Decides one request. A refusal says when the blocking window closes: the key's own window, or the
        oldest of all when the table is full. */
    method Allow(key: Key, now: int) returns (ok: bool, retryAfter: int)
      requires Valid() && clock <= now
      modifies this
      ensures Valid() && clock == now
      ensures (entries, ok) == Decide(old(entries), limit, window, key, now)
      ensures ok ==> retryAfter == 0
      ensures !ok ==> retryAfter > 0 && Blocks(entries, window, key, now, retryAfter)
    {
      hide ListOk, Scan;
      Purge(now);
      clock := now;
      AllOpen(old(entries), now, window);
      if key !in entries {
        if |entries| >= MAX_ENTRIES {
          OldestFirst(entries, expirations);
          return false, entries[expirations[0]].start + window - now;
        }
        PushBack(entries, expirations, key, now);
        expirations := expirations + [key];
        entries := entries[key := Entry(now, 1)];
        return true, 0;
      }
      var entry := entries[key];
      if entry.count >= limit {
        return false, entry.start + window - now;
      }
      CountUp(entries, expirations, key);
      entries := entries[key := Entry(entry.start, entry.count + 1)];
      return true, 0;
    }

    lemma AllOpen(entries: map<Key, Entry>, now: int, window: int)
      ensures forall k :: k in Scan(entries, now, window) ==> now < Scan(entries, now, window)[k].start + window
    {
    }

    lemma CountUp(entries: map<Key, Entry>, expirations: seq<Key>, key: Key)
      requires ListOk(entries, expirations) && key in entries
      ensures ListOk(entries[key := Entry(entries[key].start, entries[key].count + 1)], expirations)
      ensures |entries[key := Entry(entries[key].start, entries[key].count + 1)]| == |entries|
    {
      var after := entries[key := Entry(entries[key].start, entries[key].count + 1)];
      assert after.Keys == entries.Keys;
      assert |after| == |after.Keys| && |entries| == |entries.Keys|;
    }

    lemma OldestFirst(entries: map<Key, Entry>, expirations: seq<Key>)
      requires ListOk(entries, expirations) && |entries| > 0
      ensures expirations != [] && expirations[0] in entries
      ensures forall x :: x in entries ==> entries[expirations[0]].start <= entries[x].start
    {
      assert exists k :: k in entries by {
        if entries.Keys == {} {
          assert false;
        }
        var k :| k in entries.Keys;
      }
      assert expirations[0] in expirations;
      forall x | x in entries
        ensures entries[expirations[0]].start <= entries[x].start
      {
        var i :| 0 <= i < |expirations| && expirations[i] == x;
      }
    }
  }

  // ----- What a key is granted over time -----

  datatype Request = Request(key: Key, at: int)

  /** Requests arrive in clock order. */
  ghost predicate InOrder(requests: seq<Request>, clock: int) {
    (forall i :: 0 <= i < |requests| ==> clock <= requests[i].at)
    && forall i, j :: 0 <= i < j < |requests| ==> requests[i].at <= requests[j].at
  }

  function Serve(entries: map<Key, Entry>, limit: nat, window: int, requests: seq<Request>): map<Key, Entry>
    decreases |requests|
  {
    if requests == [] then entries
    else Serve(Decide(entries, limit, window, requests[0].key, requests[0].at).0, limit, window, requests[1..])
  }

  /** The times at which a key was granted. */
  function Grants(entries: map<Key, Entry>, limit: nat, window: int, requests: seq<Request>, key: Key): seq<int>
    decreases |requests|
  {
    if requests == [] then []
    else
      var (after, ok) := Decide(entries, limit, window, requests[0].key, requests[0].at);
      (if ok && requests[0].key == key then [requests[0].at] else []) + Grants(after, limit, window, requests[1..], key)
  }

  /** Grants come in windows: opens[j] is the grant that opened the window of grant j. A window holds at
      most `limit` grants, and it opens a full length after the window before it. */
  ghost predicate Windowed(grants: seq<int>, opens: seq<nat>, limit: nat, window: int) {
    && |opens| == |grants|
    && (forall i, j :: 0 <= i <= j < |grants| ==> grants[i] <= grants[j])
    && forall j :: 0 <= j < |grants| ==> InWindow(grants, opens, limit, window, j)
  }

  ghost predicate InWindow(grants: seq<int>, opens: seq<nat>, limit: nat, window: int, j: nat)
    requires |opens| == |grants| && j < |grants|
  {
    && opens[j] <= j < opens[j] + limit
    && (opens[j] > 0 ==> opens[opens[j] - 1] < opens[j] && grants[opens[j]] >= grants[opens[opens[j] - 1]] + window)
  }

  /** The entry of a key is its last window, unless that window has closed. */
  ghost predicate Linked(entries: map<Key, Entry>, key: Key, grants: seq<int>, opens: seq<nat>, window: int, clock: int)
    requires |opens| == |grants|
  {
    && (grants == [] ==> key !in entries)
    && (grants != [] ==>
      var last := |grants| - 1;
      && grants[last] <= clock && opens[last] <= last
      && (if key in entries then entries[key] == Entry(grants[opens[last]], |grants| - opens[last])
          else clock >= grants[opens[last]] + window))
  }

  ghost predicate Tracked(entries: map<Key, Entry>, key: Key, grants: seq<int>, limit: nat, window: int, clock: int) {
    exists opens :: TrackedBy(entries, key, grants, opens, limit, window, clock)
  }

  /** What a decision does to one key: another key's request can only let its window close. */
  lemma DecisionForKey(entries: map<Key, Entry>, limit: nat, window: int, request: Request, key: Key)
    requires limit > 0
    ensures var (after, ok) := Decide(entries, limit, window, request.key, request.at);
      var live := key in entries && request.at < entries[key].start + window;
      if ok && request.key == key then
        key in after &&
        (if live then entries[key].count < limit && after[key] == Entry(entries[key].start, entries[key].count + 1)
         else after[key] == Entry(request.at, 1))
      else
        (key in after <==> live) && (live ==> after[key] == entries[key])
  {
  }

  lemma DecisionTracked(entries: map<Key, Entry>, limit: nat, window: int, request: Request, key: Key,
      grants: seq<int>, clock: int)
    requires limit > 0 && window > 0 && clock <= request.at && Tracked(entries, key, grants, limit, window, clock)
    ensures var (after, ok) := Decide(entries, limit, window, request.key, request.at);
      Tracked(after, key, grants + (if ok && request.key == key then [request.at] else []), limit, window, request.at)
  {
    hide Decide;
    var opens: seq<nat> :| TrackedBy(entries, key, grants, opens, limit, window, clock);
    var (after, ok) := Decide(entries, limit, window, request.key, request.at);
    DecisionForKey(entries, limit, window, request, key);
    if ok && request.key == key {
      var live := key in entries && request.at < entries[key].start + window;
      var first: nat := if live then opens[|grants| - 1] else |grants|;
      GrantAppends(grants, opens, limit, window, request.at, first);
      assert TrackedBy(after, key, grants + [request.at], opens + [first], limit, window, request.at);
    } else {
      assert grants + [] == grants;
      assert TrackedBy(after, key, grants, opens, limit, window, request.at);
    }
  }

  lemma GrantAppends(grants: seq<int>, opens: seq<nat>, limit: nat, window: int, at: int, first: nat)
    requires limit > 0 && Windowed(grants, opens, limit, window)
    requires grants != [] ==> grants[|grants| - 1] <= at
    requires if first == |grants|
      then grants != [] ==> opens[|grants| - 1] < |grants| && at >= grants[opens[|grants| - 1]] + window
      else grants != [] && first == opens[|grants| - 1] && |grants| - first < limit
    ensures Windowed(grants + [at], opens + [first], limit, window)
  {
    var grants', opens' := grants + [at], opens + [first];
    forall j | 0 <= j < |grants'|
      ensures InWindow(grants', opens', limit, window, j)
    {
      if j < |grants| {
        assert InWindow(grants, opens, limit, window, j);
      } else if grants != [] {
        assert InWindow(grants, opens, limit, window, |grants| - 1);
      }
    }
  }

  lemma {:induction false} ServeTracked(entries: map<Key, Entry>, limit: nat, window: int, requests: seq<Request>,
      key: Key, grants: seq<int>, clock: int) returns (end: int)
    requires limit > 0 && window > 0 && InOrder(requests, clock) && Tracked(entries, key, grants, limit, window, clock)
    ensures end == if requests == [] then clock else requests[|requests| - 1].at
    ensures Tracked(Serve(entries, limit, window, requests), key,
      grants + Grants(entries, limit, window, requests, key),
      limit, window, end)
    decreases |requests|
  {
    hide Decide, Tracked;
    if requests == [] {
      end := clock;
      assert grants + [] == grants;
    } else {
      DecisionTracked(entries, limit, window, requests[0], key, grants, clock);
      var (after, ok) := Decide(entries, limit, window, requests[0].key, requests[0].at);
      var more := if ok && requests[0].key == key then [requests[0].at] else [];
      end := ServeTracked(after, limit, window, requests[1..], key, grants + more, requests[0].at);
      assert grants + more + Grants(after, limit, window, requests[1..], key) ==
        grants + Grants(entries, limit, window, requests, key);
    }
  }

  /** Whatever is requested, one key's grants fall into windows of at most `limit` grants that open at least
      a full length apart; so any 2 * limit consecutive grants take at least a full window. */
  lemma GrantsSpread(limit: nat, window: int, requests: seq<Request>, key: Key, clock: int)
    requires limit > 0 && window > 0 && InOrder(requests, clock)
    ensures var grants := Grants(map[], limit, window, requests, key);
      && (exists opens :: Windowed(grants, opens, limit, window))
      && forall i: nat :: i + 2 * limit - 1 < |grants| ==> grants[i + 2 * limit - 1] >= grants[i] + window
  {
    hide Decide, Grants, Serve, Linked, InOrder, InWindow;
    var grants := Grants(map[], limit, window, requests, key);
    NothingGranted(limit, window, key, clock);
    var end := ServeTracked(map[], limit, window, requests, key, [], clock);
    assert [] + grants == grants;
    var opens: seq<nat> :| TrackedBy(Serve(map[], limit, window, requests), key, grants, opens, limit, window, end);
    forall i: nat | i + 2 * limit - 1 < |grants|
      ensures grants[i + 2 * limit - 1] >= grants[i] + window
    {
      WindowsSpread(grants, opens, limit, window, i);
    }
  }

  lemma NothingGranted(limit: nat, window: int, key: Key, clock: int)
    ensures Tracked(map[], key, [], limit, window, clock)
  {
    assert TrackedBy(map[], key, [], [], limit, window, clock);
  }

  lemma WindowsSpread(grants: seq<int>, opens: seq<nat>, limit: nat, window: int, i: nat)
    requires limit > 0 && Windowed(grants, opens, limit, window) && i + 2 * limit - 1 < |grants|
    ensures grants[i + 2 * limit - 1] >= grants[i] + window
  {
    var j := i + 2 * limit - 1;
    assert InWindow(grants, opens, limit, window, j);
    assert InWindow(grants, opens, limit, window, opens[j] - 1);
  }

  /** The last window of a key is still open. */
  predicate LastOpen(grants: seq<int>, opens: seq<nat>, window: int, at: int) {
    |opens| == |grants| && grants != [] && opens[|grants| - 1] < |grants|
    && at < grants[opens[|grants| - 1]] + window
  }

  /** Whatever was requested before, a request is refused exactly when its key's open window holds `limit`
      grants, or when it would open another window while the table is full of open ones. */
  lemma RefusedExactly(limit: nat, window: int, requests: seq<Request>, request: Request, clock: int)
    requires limit > 0 && window > 0 && InOrder(requests, clock) && clock <= request.at
    requires forall i :: 0 <= i < |requests| ==> requests[i].at <= request.at
    ensures var grants := Grants(map[], limit, window, requests, request.key);
      var entries := Serve(map[], limit, window, requests);
      exists opens :: Windowed(grants, opens, limit, window) &&
        (Decide(entries, limit, window, request.key, request.at).1 <==>
          if LastOpen(grants, opens, window, request.at) then |grants| - opens[|grants| - 1] < limit
          else |Scan(entries, request.at, window)| < MAX_ENTRIES)
  {
    hide Grants, Serve, InOrder, Windowed, Decide, Scan, LastOpen, TrackedBy;
    var grants := Grants(map[], limit, window, requests, request.key);
    NothingGranted(limit, window, request.key, clock);
    var end := ServeTracked(map[], limit, window, requests, request.key, [], clock);
    assert [] + grants == grants;
    var entries := Serve(map[], limit, window, requests);
    var opens: seq<nat> :| TrackedBy(entries, request.key, grants, opens, limit, window, end);
    LinkedDecides(entries, request, grants, opens, limit, window, end);
  }

  ghost predicate TrackedBy(entries: map<Key, Entry>, key: Key, grants: seq<int>, opens: seq<nat>, limit: nat,
    window: int, clock: int)
  {
    Windowed(grants, opens, limit, window) && Linked(entries, key, grants, opens, window, clock)
  }

  lemma LinkedDecides(entries: map<Key, Entry>, request: Request, grants: seq<int>, opens: seq<nat>, limit: nat,
      window: int, clock: int)
    requires limit > 0 && clock <= request.at && TrackedBy(entries, request.key, grants, opens, limit, window, clock)
    ensures Windowed(grants, opens, limit, window)
    ensures Decide(entries, limit, window, request.key, request.at).1 <==>
      if LastOpen(grants, opens, window, request.at) then |grants| - opens[|grants| - 1] < limit
      else |Scan(entries, request.at, window)| < MAX_ENTRIES
  {
    if grants != [] {
      assert InWindow(grants, opens, limit, window, |grants| - 1);
    }
  }

  // ----- The bound is tight -----

  function Burst(key: Key, at: int, n: nat): (r: seq<Request>)
    ensures |r| == n && forall i :: 0 <= i < n ==> r[i] == Request(key, at)
  {
    if n == 0 then [] else [Request(key, at)] + Burst(key, at, n - 1)
  }

  function Times(at: int, n: nat): (r: seq<int>)
    ensures |r| == n && forall i :: 0 <= i < n ==> r[i] == at
  {
    if n == 0 then [] else [at] + Times(at, n - 1)
  }

  /** One request opens a window, the rest of its limit come at its last instant, and another window's
      worth come at the next. */
  function Tight(limit: nat, window: int, key: Key): seq<Request>
    requires limit > 0
  {
    [Request(key, 0)] + (Burst(key, window - 1, limit - 1) + Burst(key, window, limit))
  }

  lemma GrantFirst(entries: map<Key, Entry>, limit: nat, window: int, key: Key, at: int, n: nat, rest: seq<Request>)
    requires n > 0
    requires Decide(entries, limit, window, key, at).1
    ensures Grants(entries, limit, window, Burst(key, at, n) + rest, key) ==
      [at] + Grants(Decide(entries, limit, window, key, at).0, limit, window, Burst(key, at, n - 1) + rest, key)
  {
    hide Decide;
    var requests := Burst(key, at, n) + rest;
    assert requests[0] == Request(key, at) && requests[1..] == Burst(key, at, n - 1) + rest;
  }

  lemma TimesFirst(at: int, n: nat, more: seq<int>)
    requires n > 0
    ensures [at] + (Times(at, n - 1) + more) == Times(at, n) + more
  {
    assert [at] + Times(at, n - 1) == Times(at, n);
  }

  /** Within a window, requests up to the limit are all granted. */
  lemma {:induction false} BurstGranted(limit: nat, window: int, key: Key, start: int, count: nat, at: int, n: nat,
      rest: seq<Request>)
    requires start <= at < start + window && count + n <= limit
    ensures Grants(map[key := Entry(start, count)], limit, window, Burst(key, at, n) + rest, key) ==
      Times(at, n) + Grants(map[key := Entry(start, count + n)], limit, window, rest, key)
    decreases n
  {
    hide Decide, Grants;
    var more := Grants(map[key := Entry(start, count + n)], limit, window, rest, key);
    if n == 0 {
      assert Burst(key, at, 0) + rest == rest && Times(at, 0) + more == more;
    } else {
      OneKey(limit, window, key, Some(Entry(start, count)), at);
      GrantFirst(map[key := Entry(start, count)], limit, window, key, at, n, rest);
      BurstGranted(limit, window, key, start, count + 1, at, n - 1, rest);
      TimesFirst(at, n, more);
    }
  }

  /** A window's worth of requests at one instant after the last window closed is granted. */
  lemma WindowGranted(limit: nat, window: int, key: Key, former: Option<Entry>, at: int, n: nat, rest: seq<Request>)
    requires 0 < n <= limit && window > 0 && (former.Some? ==> at >= former.value.start + window)
    ensures Grants(Single(key, former), limit, window, Burst(key, at, n) + rest, key) ==
      Times(at, n) + Grants(map[key := Entry(at, n)], limit, window, rest, key)
  {
    hide Decide, Grants, Burst, Times;
    OneKey(limit, window, key, former, at);
    GrantFirst(Single(key, former), limit, window, key, at, n, rest);
    BurstGranted(limit, window, key, at, 1, at, n - 1, rest);
    TimesFirst(at, n, Grants(map[key := Entry(at, n)], limit, window, rest, key));
  }

  function Single(key: Key, entry: Option<Entry>): map<Key, Entry> {
    if entry.Some? then map[key := entry.value] else map[]
  }

  /** A decision for the only key there is, below its limit. */
  lemma OneKey(limit: nat, window: int, key: Key, entry: Option<Entry>, at: int)
    requires limit > 0 && window > 0
    requires entry.Some? && at < entry.value.start + window ==> entry.value.count < limit
    ensures Decide(Single(key, entry), limit, window, key, at) ==
      (map[key := if entry.Some? && at < entry.value.start + window then Entry(entry.value.start, entry.value.count + 1)
        else Entry(at, 1)], true)
  {
    var live := Scan(Single(key, entry), at, window);
    if entry.Some? && at < entry.value.start + window {
      var counted := Entry(entry.value.start, entry.value.count + 1);
      assert live == map[key := entry.value];
      assert live[key := counted] == map[key := counted];
    } else {
      assert live == map[];
      assert live[key := Entry(at, 1)] == map[key := Entry(at, 1)];
    }
  }

  /** One grant fewer can fall inside one window, for every limit: after the first, Tight's 2 * limit - 1
      further requests come within one tick, and all are granted. */
  lemma BoundIsTight(limit: nat, window: int, key: Key)
    requires limit > 0 && window > 1
    ensures InOrder(Tight(limit, window, key), 0)
    ensures var grants := Grants(map[], limit, window, Tight(limit, window, key), key);
      |grants| == 2 * limit && grants[2 * limit - 1] <= grants[1] + 1 < grants[1] + window
  {
    hide Decide, Grants, Burst, Times;
    var late, next := Burst(key, window - 1, limit - 1), Burst(key, window, limit);
    assert Burst(key, 0, 1) == [Request(key, 0)];
    WindowGranted(limit, window, key, None, 0, 1, late + next);
    BurstGranted(limit, window, key, 0, 1, window - 1, limit - 1, next);
    assert next + [] == next;
    WindowGranted(limit, window, key, Some(Entry(0, limit)), window, limit, []);
    NoGrants(map[key := Entry(window, limit)], limit, window, key);
    var grants := Times(0, 1) + (Times(window - 1, limit - 1) + (Times(window, limit) + []));
    assert Grants(map[], limit, window, Tight(limit, window, key), key) == grants;
  }

  lemma NoGrants(entries: map<Key, Entry>, limit: nat, window: int, key: Key)
    ensures Grants(entries, limit, window, [], key) == []
  {
  }
}
