/** internal/cache: the bounded in-memory store. Every method is one critical section of the
    source's lock; the clock is read once per method. */
module Store {
  import opened Text
  import opened Http
  import opened Totals

  datatype Entry = Entry(status: int, headers: Headers, proto: string, body: string, cachedAt: int, ttl: int)

  /** `Entry.Expired` at clock value `now`. */
  predicate Expired(e: Entry, now: int) {
    now - e.cachedAt > e.ttl
  }

  function Lengths(vs: seq<string>): nat {
    if |vs| == 0 then 0 else Lengths(vs[..|vs| - 1]) + |vs[|vs| - 1]|
  }

  ghost function HeaderWeight(k: string, vs: seq<string>): nat {
    |k| + Lengths(vs)
  }

  /** Body bytes plus the bytes of all header names and values. */
  ghost function Size(e: Entry): nat {
    |e.body| + Total(e.headers, HeaderWeight)
  }

  /** Every byte of the body, of a header name and of each of its lines counts once. */
  lemma {:induction false} SizeCountsBytes(e: Entry, k: string, vs: seq<string>, v: string)
    requires k !in e.headers
    ensures e.headers == map[] ==> Size(e) == |e.body|
    ensures Size(e.(headers := e.headers[k := []])) == Size(e) + |k|
    ensures Size(e.(headers := e.headers[k := vs + [v]])) == Size(e.(headers := e.headers[k := vs])) + |v|
  {
    TotalInsert(e.headers, HeaderWeight, k, []);
    TotalInsert(e.headers, HeaderWeight, k, vs);
    TotalInsert(e.headers, HeaderWeight, k, vs + [v]);
    assert (vs + [v])[..|vs|] == vs;
  }

  method EntrySize(e: Entry) returns (n: nat)
    ensures n == Size(e)
  {
    n := |e.body|;
    var rest := e.headers;
    while rest != map[]
      invariant n + Total(rest, HeaderWeight) == Size(e)
      decreases |rest|
    {
      var k :| k in rest;
      TotalRemove(rest, HeaderWeight, k);
      n := n + |k|;
      var vs := rest[k];
      for i := 0 to |vs|
        invariant n + Lengths(vs) - Lengths(vs[..i]) + Total(rest - {k}, HeaderWeight) == Size(e)
      {
        assert vs[..i + 1][..i] == vs[..i];
        n := n + |vs[i]|;
      }
      assert vs[..|vs|] == vs;
      rest := rest - {k};
    }
  }

  ghost function EntryWeight(k: string, e: Entry): nat {
    Size(e)
  }

  ghost function TotalSize(m: map<string, Entry>): nat {
    Total(m, EntryWeight)
  }

  /** The budget counts every entry once. */
  lemma {:induction false} BudgetCountsEntries(m: map<string, Entry>, k: string, e: Entry)
    requires k !in m
    ensures TotalSize(map[]) == 0 && TotalSize(m[k := e]) == TotalSize(m) + Size(e)
  {
    TotalInsert(m, EntryWeight, k, e);
  }

  ghost predicate SubMap(s: map<string, Entry>, m: map<string, Entry>) {
    forall k :: k in s ==> k in m && m[k] == s[k]
  }

  ghost predicate NoneExpired(m: map<string, Entry>, now: int) {
    forall k :: k in m ==> !Expired(m[k], now)
  }

  ghost predicate NeededFor(k: string, m: map<string, Entry>, s: map<string, Entry>, need: nat, max: int) {
    k in m && k !in s && TotalSize(s) + Size(m[k]) + need > max
  }

  ghost predicate LiveGone(m: map<string, Entry>, s: map<string, Entry>, now: int) {
    exists k :: k in m && k !in s && !Expired(m[k], now)
  }

  /** The last entry to go was still in the way; it was a live one if any live one went. */
  ghost predicate LastNeeded(m: map<string, Entry>, s: map<string, Entry>, need: nat, now: int, max: int) {
    exists k :: NeededFor(k, m, s, need, max) && (LiveGone(m, s, now) ==> !Expired(m[k], now))
  }

  /** What making room may do: survivors are untouched and leave `need` bytes; a live entry goes
      only when no expired one is left; the last entry to go was still in the way. */
  ghost predicate MakesRoom(m: map<string, Entry>, need: nat, now: int, max: int, s: map<string, Entry>) {
    && SubMap(s, m)
    && TotalSize(s) + need <= max
    && LiveLast(m, s, now)
    && (s != m ==> LastNeeded(m, s, need, now, max))
  }

  ghost predicate LiveLast(m: map<string, Entry>, s: map<string, Entry>, now: int) {
    LiveGone(m, s, now) ==> NoneExpired(s, now)
  }

  /** The whole effect of `Set`. */
  ghost predicate SetSpec(m: map<string, Entry>, key: string, e: Entry, now: int, max: int, m': map<string, Entry>) {
    if Size(e) > max then m' == map[]
    else key in m' && m'[key] == e && MakesRoom(m - {key}, Size(e), now, max, m' - {key})
  }

  /** One eviction keeps the promise of `MakesRoom` about the entries gone so far. */
  lemma RoomStep(m: map<string, Entry>, before: map<string, Entry>, after: map<string, Entry>,
                 victim: string, need: nat, max: int, now: int)
    requires SubMap(before, m) && LiveLast(m, before, now)
    requires victim in before && after == before - {victim}
    requires !Expired(before[victim], now) ==> NoneExpired(before, now)
    requires TotalSize(before) + need > max
    ensures SubMap(after, m) && LiveLast(m, after, now) && LastNeeded(m, after, need, now, max)
  {
    TotalRemove(before, EntryWeight, victim);
    assert NeededFor(victim, m, after, need, max);
    assert Expired(m[victim], now) ==> !LiveGone(m, before, now);
    assert forall k :: k in m && k !in after ==> k == victim || k !in before;
  }

  lemma SetSpecIntro(m: map<string, Entry>, key: string, e: Entry, now: int, max: int, s: map<string, Entry>)
    requires Size(e) <= max && MakesRoom(m - {key}, Size(e), now, max, s)
    ensures key !in s && SetSpec(m, key, e, now, max, s[key := e])
  {
    assert s[key := e] - {key} == s;
  }

  /** The history of a store: the argument of the latest Set of every key, how many entries were
      ever stored, how each of them went, and how many evictions a sweep has still to report. */
  datatype Ledger = Ledger(latest: map<string, Entry>, stored: nat, overwritten: nat, deleted: nat,
                           evicted: nat, pending: nat)

  class Cache {
    const maxBytes: int
    var entries: map<string, Entry>
    var count: int
    var totalBytes: int
    var reported: int               // the sum of all arguments of onEvicted
    ghost var ledger: Ledger        // what has happened so far

    ghost predicate Accounted()
      reads this
    {
      && 0 <= maxBytes
      && count == |entries|
      && totalBytes == TotalSize(entries)
      && totalBytes <= maxBytes
    }

    ghost predicate Valid()
      reads this
    {
      && Accounted()
      && SubMap(entries, ledger.latest)
      && ledger.stored == count + ledger.overwritten + ledger.deleted + ledger.evicted
      && ledger.evicted == reported + ledger.pending
    }

    constructor (maxBytes: int)
      requires 0 <= maxBytes
      ensures Valid() && entries == map[] && this.maxBytes == maxBytes && reported == 0
    {
      this.maxBytes := maxBytes;
      entries, count, totalBytes, reported := map[], 0, 0, 0;
      ledger := Ledger(map[], 0, 0, 0, 0, 0);
    }

    method RemoveLocked(key: string) returns (size: int)
      requires Accounted()
      modifies `entries, `count, `totalBytes
      ensures Accounted()
      ensures entries == old(entries) - {key}
      ensures size == old(totalBytes) - totalBytes
      ensures count == old(count) - (if key in old(entries) then 1 else 0)
    {
      size := 0;
      if key in entries {
        size := EntrySize(entries[key]);
        TotalRemove(entries, EntryWeight, key);
        assert (entries - {key}).Keys == entries.Keys - {key};
        totalBytes := totalBytes - size;
        count := count - 1;
        entries := entries - {key};
      } else {
        assert entries - {key} == entries;
      }
    }

    method AddLocked(key: string, e: Entry)
      requires Accounted() && key !in entries
      requires totalBytes + Size(e) <= maxBytes
      modifies `entries, `count, `totalBytes
      ensures Accounted()
      ensures entries == old(entries)[key := e]
      ensures count == old(count) + 1
    {
      TotalInsert(entries, EntryWeight, key, e);
      assert entries[key := e].Keys == entries.Keys + {key};
      var n := EntrySize(e);
      entries := entries[key := e];
      totalBytes := totalBytes + n;
      count := count + 1;
    }

    /** One pass over the map in any order, stopping at the first entry that may go. */
    method EvictOneLocked(expiredOnly: bool, now: int) returns (done: bool, ghost victim: string)
      requires Valid()
      modifies `entries, `count, `totalBytes, `reported, `ledger
      ensures Valid() && ledger == old(ledger).(evicted := ledger.evicted)
      ensures done ==>
        && victim in old(entries)
        && (expiredOnly ==> now - old(entries)[victim].cachedAt > old(entries)[victim].ttl)
        && entries == old(entries) - {victim}
        && reported == old(reported) + 1
      ensures !done ==>
        && entries == old(entries) && totalBytes == old(totalBytes) && reported == old(reported)
        && (if expiredOnly then NoneExpired(entries, now) else entries == map[])
    {
      var rest := entries.Keys;
      while rest != {}
        invariant rest <= entries.Keys
        invariant forall k :: k in entries && k !in rest ==> expiredOnly && !Expired(entries[k], now)
      {
        var k :| k in rest;
        rest := rest - {k};
        if expiredOnly && !Expired(entries[k], now) {
          continue;
        }
        var _ := RemoveLocked(k);
        reported := reported + 1;
        ledger := ledger.(evicted := ledger.evicted + 1);
        return true, k;
      }
      return false, "";
    }

    /** One iteration of the loop in `Set`: an expired victim if there is one, else any. */
    method EvictOne(now: int) returns (done: bool, ghost victim: string)
      requires Valid()
      modifies `entries, `count, `totalBytes, `reported, `ledger
      ensures Valid() && ledger == old(ledger).(evicted := ledger.evicted)
      ensures done ==>
        && victim in old(entries)
        && entries == old(entries) - {victim}
        && (!Expired(old(entries)[victim], now) ==> NoneExpired(old(entries), now))
      ensures !done ==> entries == old(entries) == map[]
    {
      done, victim := EvictOneLocked(true, now);
      if !done {
        done, victim := EvictOneLocked(false, now);
      }
    }

    /** The eviction loop. It stops as soon as `need` bytes are free. */
    method MakeRoom(need: nat, now: int) returns (ok: bool)
      requires Valid()
      modifies `entries, `count, `totalBytes, `reported, `ledger
      ensures Valid() && ledger == old(ledger).(evicted := ledger.evicted)
      ensures ok <==> need <= maxBytes
      ensures if ok then MakesRoom(old(entries), need, now, maxBytes, entries) else entries == map[]
    {
      ghost var m := entries;
      while totalBytes + need > maxBytes
        invariant Valid() && ledger == old(ledger).(evicted := ledger.evicted)
        invariant SubMap(entries, m) && LiveLast(m, entries, now)
        invariant entries != m ==> LastNeeded(m, entries, need, now, maxBytes)
        decreases |entries|
      {
        ghost var before := entries;
        var done, victim := EvictOne(now);
        if !done {
          assert TotalSize(map[]) == 0;
          return false;
        }
        RoomStep(m, before, entries, victim, need, maxBytes, now);
        assert entries.Keys == before.Keys - {victim};
      }
      return true;
    }

    /** The first step of `Set`: whatever the key holds goes. */
    method Displace(key: string, e: Entry)
      requires Valid()
      modifies `entries, `count, `totalBytes, `ledger
      ensures Valid() && entries == old(entries) - {key}
      ensures ledger == old(ledger).(
        latest := old(ledger).latest[key := e],
        overwritten := old(ledger).overwritten + (if key in old(entries) then 1 else 0))
    {
      var _ := RemoveLocked(key);
      ledger := ledger.(latest := ledger.latest[key := e],
                        overwritten := ledger.overwritten + if key in old(entries) then 1 else 0);
    }

    /** The last step of `Set`. */
    method Admit(key: string, e: Entry)
      requires Valid() && key !in entries && totalBytes + Size(e) <= maxBytes
      requires key in ledger.latest && ledger.latest[key] == e
      modifies `entries, `count, `totalBytes, `ledger
      ensures Valid() && entries == old(entries)[key := e]
      ensures ledger == old(ledger).(stored := old(ledger).stored + 1)
    {
      AddLocked(key, e);
      ledger := ledger.(stored := ledger.stored + 1);
    }

    method Set(key: string, e: Entry, now: int)
      requires Valid()
      modifies this
      ensures Valid()
      ensures SetSpec(old(entries), key, e, now, maxBytes, entries)
      ensures key in entries <==> Size(e) <= maxBytes
      ensures entries == map[] <==> Size(e) > maxBytes
      ensures ledger == old(ledger).(
        latest := old(ledger).latest[key := e],
        stored := old(ledger).stored + (if Size(e) <= maxBytes then 1 else 0),
        overwritten := old(ledger).overwritten + (if key in old(entries) then 1 else 0),
        evicted := ledger.evicted)
    {
      var newSize := EntrySize(e);
      Displace(key, e);
      var ok := MakeRoom(newSize, now);
      if !ok {
        return;
      }
      SetSpecIntro(old(entries), key, e, now, maxBytes, entries);
      Admit(key, e);
    }

    method Delete(key: string)
      requires Valid()
      modifies this
      ensures Valid() && entries == old(entries) - {key}
      ensures ledger == old(ledger).(deleted := old(ledger).deleted + (if key in old(entries) then 1 else 0))
    {
      var _ := RemoveLocked(key);
      ledger := ledger.(deleted := ledger.deleted + if key in old(entries) then 1 else 0);
    }

    /** The locked read of `Get`: a hit is the value of the latest Set of that key. */
    method Read(key: string) returns (r: Option<Entry>)
      requires Valid()
      ensures r == if key in entries then Some(entries[key]) else None
      ensures r.Some? ==> key in ledger.latest && ledger.latest[key] == r.value
    {
      if key in entries {
        r := Some(entries[key]);
      } else {
        r := None;
      }
    }

    /** `Get` when nothing happens between its read and its delete. */
    method Get(key: string, now: int) returns (r: Option<Entry>)
      requires Valid()
      modifies this
      ensures Valid() && ledger.latest == old(ledger).latest
      ensures r.Some? <==> key in old(entries) && now - old(entries)[key].cachedAt <= old(entries)[key].ttl
      ensures r.Some? ==> r.value == old(entries)[key] && entries == old(entries)
      ensures r.None? ==> entries == old(entries) - {key}
    {
      r := Read(key);
      if r.None? {
        assert entries - {key} == entries;
        return;
      }
      if Expired(r.value, now) {
        Delete(key);
        r := None;
      }
    }

    method SweepOne(k: string)
      requires Valid() && k in entries
      modifies `entries, `count, `totalBytes, `ledger
      ensures Valid() && entries == old(entries) - {k} && count == old(count) - 1
      ensures ledger == old(ledger).(evicted := old(ledger).evicted + 1, pending := old(ledger).pending + 1)
    {
      var _ := RemoveLocked(k);
      ledger := ledger.(evicted := ledger.evicted + 1, pending := ledger.pending + 1);
    }

    /** The locked part of one sweep: exactly the expired entries go. */
    method SweepLocked(now: int) returns (n: nat)
      requires Valid()
      modifies `entries, `count, `totalBytes, `ledger
      ensures Valid()
      ensures SubMap(entries, old(entries))
      ensures forall k :: k in old(entries) ==> (k in entries <==> now - old(entries)[k].cachedAt <= old(entries)[k].ttl)
      ensures n == old(count) - count
      ensures ledger == old(ledger).(evicted := old(ledger).evicted + n, pending := old(ledger).pending + n)
    {
      var rest := entries.Keys;
      ghost var m := entries;
      n := 0;
      while rest != {}
        invariant Valid() && rest <= entries.Keys && SubMap(entries, m)
        invariant forall k :: k in m && k !in rest ==> (k in entries <==> !Expired(m[k], now))
        invariant n == old(count) - count
        invariant ledger == old(ledger).(evicted := old(ledger).evicted + n, pending := old(ledger).pending + n)
      {
        var k :| k in rest;
        rest := rest - {k};
        if Expired(entries[k], now) {
          SweepOne(k);
          n := n + 1;
        }
      }
    }

    /** The report a sweep makes after it has released the lock. */
    method ReportSweep(n: nat)
      requires Valid() && n <= ledger.pending
      modifies `reported, `ledger
      ensures Valid() && reported == old(reported) + n
      ensures ledger == old(ledger).(pending := old(ledger).pending - n)
    {
      if n > 0 {
        reported := reported + n;
        ledger := ledger.(pending := ledger.pending - n);
      }
    }
  }

  // ----- what a caller may rely on ---------------------------------------------------------------

  /** What other parts need to know about `Set`: it may evict anything, and either the new entry is
      there afterwards or, exactly when it exceeds the budget alone, nothing is. */
  ghost predicate SetMay(m: map<string, Entry>, key: string, e: Entry, max: int, m': map<string, Entry>) {
    SubMap(m' - {key}, m) && if Size(e) <= max then key in m' && m'[key] == e else m' == map[]
  }

  lemma {:induction false} SetSpecMay(m: map<string, Entry>, key: string, e: Entry, now: int, max: int, m': map<string, Entry>)
    requires SetSpec(m, key, e, now, max, m')
    ensures SetMay(m, key, e, max, m')
  {}

  /** Where there is room nothing is evicted. */
  lemma {:induction false} RoomKeepsAll(others: map<string, Entry>, need: nat, now: int, max: int, s: map<string, Entry>)
    requires MakesRoom(others, need, now, max, s) && TotalSize(others) + need <= max
    ensures s == others
  {
    if s != others {
      var k :| NeededFor(k, others, s, need, max) && (LiveGone(others, s, now) ==> !Expired(others[k], now));
      SubTotal(s, others, k);
      assert false;
    }
  }

  lemma {:induction false} SetWithRoom(m: map<string, Entry>, key: string, e: Entry, now: int, max: int, m': map<string, Entry>)
    requires SetSpec(m, key, e, now, max, m') && TotalSize(m - {key}) + Size(e) <= max
    ensures m' == m[key := e]
  {
    RoomKeepsAll(m - {key}, Size(e), now, max, m' - {key});
    assert m' == (m' - {key})[key := e];
    assert m[key := e] == (m - {key})[key := e];
  }

  /** `Set` never invents an entry, keeps the budget, and is a no-op on others when there is room. */
  lemma {:induction false} SetKeepsOthers(m: map<string, Entry>, key: string, e: Entry, now: int, max: int, m': map<string, Entry>)
    requires SetSpec(m, key, e, now, max, m') && 0 <= max
    ensures forall k :: k in m' ==> (k == key && m'[k] == e) || (k in m && m'[k] == m[k])
    ensures TotalSize(m') <= max
    ensures TotalSize(m - {key}) + Size(e) <= max ==> m' == m[key := e]
  {
    if Size(e) <= max {
      TotalRemove(m', EntryWeight, key);
      forall k | k in m' && k != key ensures k in m && m'[k] == m[k] {
        assert k in m' - {key};
      }
    }
    if TotalSize(m - {key}) + Size(e) <= max {
      SetWithRoom(m, key, e, now, max, m');
    }
  }

  lemma {:induction false} SubTotal(s: map<string, Entry>, m: map<string, Entry>, k: string)
    requires SubMap(s, m) && k in m && k !in s
    ensures TotalSize(s) + Size(m[k]) <= TotalSize(m)
    decreases |s|
  {
    if s == map[] {
      TotalRemove(m, EntryWeight, k);
    } else {
      var j :| j in s;
      TotalRemove(s, EntryWeight, j);
      TotalRemove(m, EntryWeight, j);
      SubTotal(s - {j}, m - {j}, k);
    }
  }

  /** The entries that have not expired. */
  ghost function LivePart(m: map<string, Entry>, now: int): map<string, Entry> {
    map k | k in m && !Expired(m[k], now) :: m[k]
  }

  /** Making room spares the live entries exactly when they leave room all together. */
  lemma {:induction false} RoomSparesLive(m: map<string, Entry>, need: nat, now: int, max: int, s: map<string, Entry>)
    requires MakesRoom(m, need, now, max, s)
    ensures !LiveGone(m, s, now) <==> TotalSize(LivePart(m, now)) + need <= max
  {
    var live := LivePart(m, now);
    if LiveGone(m, s, now) {
      var k :| NeededFor(k, m, s, need, max) && !Expired(m[k], now);
      SubTotal(s, live, k);
    } else {
      SubTotalAtMost(live, s);
    }
  }

  lemma {:induction false} SubTotalAtMost(s: map<string, Entry>, m: map<string, Entry>)
    requires SubMap(s, m)
    ensures TotalSize(s) <= TotalSize(m)
  {
    if k :| k in m && k !in s {
      SubTotal(s, m, k);
    } else {
      assert s == m;
    }
  }

  /** A `Set` of an entry that fits the budget evicts no live entry exactly when all live entries
      fit beside the new one, however much room the expired ones take. */
  lemma {:induction false} SetSparesLiveIff(m: map<string, Entry>, key: string, e: Entry, now: int, max: int, m': map<string, Entry>)
    requires SetSpec(m, key, e, now, max, m') && Size(e) <= max
    ensures (forall k :: k in m && k != key && !Expired(m[k], now) ==> k in m' && m'[k] == m[k])
            <==> TotalSize(LivePart(m - {key}, now)) + Size(e) <= max
  {
    var others, s := m - {key}, m' - {key};
    RoomSparesLive(others, Size(e), now, max, s);
    if !LiveGone(others, s, now) {
      forall k | k in m && k != key && !Expired(m[k], now) ensures k in m' && m'[k] == m[k] {
        assert k in others && others[k] == m[k];
      }
    } else {
      var k :| k in others && k !in s && !Expired(others[k], now);
      assert k in m && k !in m';
    }
  }
}
