/**
 The in-memory account limiter as a mutable object: a map of entries, each holding a slice over a
 backing array that every call compacts in place. Each method is proved to take the step that
 `MemoryStore` defines on values; the theorems about runs are proved there.
 */
module MemoryLimiter {
  import opened Wrappers
  import opened SlidingWindow
  import opened MemoryStore

  /** A check changes one key of the store. */
  lemma CheckedPointwise(s: Store, c: Call)
    ensures var s' := Checked(s, c).0;
            && s'.lastCleanup == s.lastCleanup && s'.entries.Keys == s.entries.Keys + {c.account}
            && (forall k :: k in s.entries && k != c.account ==> s'.entries[k] == s.entries[k])
  {
  }

  class RateLimitEntry {
    var buffer: array<int> // backing array; the slice is its first `count` cells
    var count: nat
    var lastAccess: int
    ghost var timestamps: seq<int> // what the slice holds

    ghost predicate Valid()
      reads this, buffer
    {
      count <= buffer.Length && timestamps == buffer[..count]
    }

    constructor (now: int)
      ensures Valid() && timestamps == [] && lastAccess == now && fresh(buffer)
    {
      buffer := new int[0];
      count := 0;
      lastAccess := now;
      timestamps := [];
    }

    /** Keeps the timestamps after `start`, moving them down inside the same backing array. */
    method Compact(start: int)
      requires Valid()
      modifies `count, `timestamps, buffer
      ensures Valid() && timestamps == Live(old(timestamps), start)
    {
      var kept, i := 0, 0;
      while i < count
        invariant 0 <= kept <= i <= count == old(count) <= buffer.Length
        invariant timestamps == old(timestamps) && buffer[..kept] == LiveTo(timestamps, i, start)
        invariant forall j :: i <= j < count ==> buffer[j] == timestamps[j]
      {
        if buffer[i] > start {
          buffer[kept] := buffer[i];
          kept := kept + 1;
        }
        i := i + 1;
      }
      count := kept;
      timestamps := Live(timestamps, start);
    }

    /** Go's append: a full backing array is replaced by a larger copy. */
    method Append(t: int)
      requires Valid()
      modifies `buffer, `count, `timestamps, buffer
      ensures Valid() && timestamps == old(timestamps) + [t]
      ensures buffer == old(buffer) || fresh(buffer)
    {
      if count == buffer.Length {
        var grown := new int[2 * buffer.Length + 1];
        forall i | 0 <= i < count { grown[i] := buffer[i]; }
        assert grown[..count] == buffer[..count];
        buffer := grown;
      }
      buffer[count] := t;
      count := count + 1;
      timestamps := timestamps + [t];
    }

    /** The part of `RateLimiter.Check` that works on one entry. */
    method Hit(limit: int, at: int) returns (allowed: bool, remaining: int, resetAt: int)
      requires Valid()
      modifies this, buffer
      ensures Valid() && lastAccess == at
      ensures buffer == old(buffer) || fresh(buffer)
      ensures var live := Live(old(timestamps), at - WINDOW);
              Reply(allowed, remaining, resetAt) == CheckReply(live, limit, at)
              && timestamps == if allowed then live + [at] else live
    {
      lastAccess := at;
      Compact(at - WINDOW);
      remaining := limit - count;
      if remaining < 0 { remaining := 0; }
      if count > 0 {
        resetAt := UnixSeconds(buffer[0] + WINDOW);
      } else {
        resetAt := UnixSeconds(at + WINDOW);
      }
      if count >= limit {
        return false, 0, resetAt;
      }
      Append(at);
      return true, remaining - 1, resetAt;
    }
  }

  class RateLimiter {
    var store: map<Id, RateLimitEntry>
    var lastCleanup: int
    ghost var entries: map<Id, Entry> // what the entries hold, by account
    ghost var owner: map<object, Id> // whose entry or backing array an object is

    /** `entries` mirrors the objects; no entry and no backing array belongs to two accounts. */
    ghost predicate Valid()
      reads this, owner.Keys
    {
      this !in owner && Apart() && Mirrored()
    }

    ghost predicate Apart()
      reads `store, `owner, owner.Keys
    {
      forall k :: k in store ==> Owns(k, store[k]) && Owns(k, store[k].buffer) && store[k].Valid()
    }

    ghost predicate Mirrored()
      requires Apart()
      reads `store, `owner, `entries, owner.Keys
    {
      && entries.Keys == store.Keys
      && forall k :: k in store ==> entries[k] == Entry(store[k].timestamps, store[k].lastAccess)
    }

    ghost predicate Owns(account: Id, o: object)
      reads `owner
    {
      o in owner && owner[o] == account
    }

    ghost function View(): Store
      reads this
    {
      Store(entries, lastCleanup)
    }

    constructor (now: int)
      ensures Valid() && View() == Store(map[], now)
    {
      store := map[];
      lastCleanup := now;
      entries, owner := map[], map[];
    }

    method Cleanup(now: int) returns (ghost victims: set<Id>)
      requires Valid()
      modifies `store, `lastCleanup, `entries
      ensures Valid() && Shrunk(old(store))
      ensures LegalVictims(old(View()), now, victims) && View() == Cleaned(old(View()), now, victims)
    {
      victims := {};
      if now - lastCleanup < CLEANUP_INTERVAL { return; }
      ghost var swept := Swept(entries, now);
      assert swept.Keys == FreshKeys(now) && |swept| == |swept.Keys|;
      victims := SweepAndEvict(now);
      lastCleanup := now;
      entries := swept - victims;
      ShrunkValid();
    }

    /** Deleting keys, and nothing else, keeps the limiter valid. */
    twostate lemma ShrunkValid()
      requires old(Valid()) && Shrunk(old(store)) && owner == old(owner) && unchanged(old(owner.Keys))
      requires entries.Keys == store.Keys && forall k :: k in entries ==>
                 k in old(entries) && entries[k] == old(entries)[k]
      ensures Valid()
    {
    }

    /** The keys the TTL loop keeps. */
    ghost function FreshKeys(now: int): set<Id>
      reads `store, store.Values
    {
      set k | k in store && now - store[k].lastAccess <= ENTRY_TTL
    }

    method SweepAndEvict(now: int) returns (ghost victims: set<Id>)
      modifies `store
      ensures Shrunk(old(store)) && store.Keys == old(FreshKeys(now)) - victims
      ensures var n := |old(FreshKeys(now))|;
              if n > MAX_ENTRIES then victims <= old(FreshKeys(now)) && |victims| == n / 5 else victims == {}
    {
      ghost var keep := FreshKeys(now);
      SweepStale(now);
      assert |store| == |keep| by { assert store.Keys == keep && |store| == |store.Keys|; }
      victims := {};
      if |store| > MAX_ENTRIES {
        var oldest;
        oldest, victims := PickFifth();
        DeleteAll(oldest, victims);
      }
    }

    /** Only keys go away; what stays is untouched. */
    ghost predicate Shrunk(before: map<Id, RateLimitEntry>)
      reads `store
    {
      forall k :: k in store ==> k in before && store[k] == before[k]
    }

    /** The TTL loop: Go may delete from the map it ranges over. */
    method SweepStale(now: int)
      modifies `store
      ensures Shrunk(old(store)) && store.Keys == old(FreshKeys(now))
    {
      var keys := store.Keys;
      while keys != {}
        invariant keys <= old(store).Keys && Shrunk(old(store))
        invariant forall k :: k in old(store) ==>
                    (k in store <==> k in keys || now - old(store)[k].lastAccess <= ENTRY_TTL)
        decreases |keys|
      {
        var key :| key in keys;
        if now - store[key].lastAccess > ENTRY_TTL {
          store := store - {key};
        }
        keys := keys - {key};
      }
    }

    /** The first capacity loop: a fifth of the keys, in whatever order the map yields them. */
    method PickFifth() returns (oldest: seq<Id>, ghost picked: set<Id>)
      requires |store| > MAX_ENTRIES
      ensures forall k :: k in oldest <==> k in picked
      ensures picked <= store.Keys && |picked| == |store| / 5
    {
      var keys := store.Keys;
      oldest, picked := [], {};
      assert |store.Keys| == |store|;
      while |oldest| < |store| / 5
        invariant |oldest| <= |store| / 5 && |oldest| == |picked|
        invariant picked !! keys && picked + keys == store.Keys && |keys| == |store| - |oldest|
        invariant forall k :: k in oldest <==> k in picked
      {
        var key :| key in keys;
        oldest := oldest + [key];
        picked := picked + {key};
        keys := keys - {key};
      }
    }

    /** The second capacity loop. */
    method DeleteAll(keys: seq<Id>, ghost victims: set<Id>)
      requires forall k :: k in keys <==> k in victims
      modifies `store
      ensures Shrunk(old(store)) && store.Keys == old(store).Keys - victims
    {
      var i := 0;
      while i < |keys|
        invariant 0 <= i <= |keys| && Shrunk(old(store))
        invariant forall k :: k in old(store) ==> (k in store <==> k !in keys[..i])
      {
        store := store - {keys[i]};
        i := i + 1;
      }
      assert keys[..i] == keys;
    }

    /** Finds the entry or creates an empty one. */
    method EntryFor(account: Id, at: int) returns (entry: RateLimitEntry)
      requires Valid()
      modifies `store, `owner
      ensures this !in owner && Apart() && fresh(owner.Keys - old(owner.Keys))
      ensures store.Keys == old(store).Keys + {account} && entry == store[account]
      ensures entry.timestamps == Timestamps(View(), account)
      ensures forall k :: k in old(store) ==> store[k] == old(store)[k]
    {
      if account !in store { Create(account, at); }
      entry := store[account];
    }

    method Create(account: Id, at: int)
      requires Valid() && account !in store
      modifies `store, `owner
      ensures this !in owner && Apart() && fresh(owner.Keys - old(owner.Keys))
      ensures account in store && store == old(store)[account := store[account]] && store[account].timestamps == []
    {
      var created := new RateLimitEntry(at);
      store := store[account := created];
      owner := owner[created := account][created.buffer := account];
    }

    /** `Check` after its cleanup. */
    method CheckEntry(account: Id, limit: int, at: int) returns (allowed: bool, remaining: int, resetAt: int)
      requires Valid()
      modifies `store, `entries, `owner, owner.Keys
      ensures Valid() && fresh(owner.Keys - old(owner.Keys))
      ensures View() == Checked(old(View()), Call(account, limit, at)).0
      ensures Reply(allowed, remaining, resetAt) == Checked(old(View()), Call(account, limit, at)).1
    {
      ghost var before := View();
      allowed, remaining, resetAt := HitFor(before, account, limit, at);
      Mirror(before, Call(account, limit, at));
    }

    method HitFor(ghost before: Store, account: Id, limit: int, at: int)
        returns (allowed: bool, remaining: int, resetAt: int)
      requires Valid() && before == View()
      modifies `store, `owner, owner.Keys
      ensures this !in owner && Apart() && fresh(owner.Keys - old(owner.Keys))
      ensures store.Keys == before.entries.Keys + {account}
      ensures forall k :: k in before.entries && k != account ==>
                before.entries[k] == Entry(store[k].timestamps, store[k].lastAccess)
      ensures var (after, reply) := Checked(before, Call(account, limit, at));
              && Reply(allowed, remaining, resetAt) == reply
              && Entry(store[account].timestamps, store[account].lastAccess) == after.entries[account]
    {
      var entry := EntryFor(account, at);
      assert Owns(account, entry) && Owns(account, entry.buffer);
      allowed, remaining, resetAt := HitEntry(entry, before, account, limit, at);
    }

    method HitEntry(entry: RateLimitEntry, ghost before: Store, ghost account: Id, limit: int, at: int)
        returns (allowed: bool, remaining: int, resetAt: int)
      requires this !in owner && Apart() && account in store && entry == store[account]
      requires entry.timestamps == Timestamps(before, account)
      modifies `owner, entry, entry.buffer
      ensures this !in owner && Apart() && fresh(owner.Keys - old(owner.Keys))
      ensures forall k :: k in store && k != account ==>
                store[k].timestamps == old(store[k].timestamps) && store[k].lastAccess == old(store[k].lastAccess)
      ensures var (after, reply) := Checked(before, Call(account, limit, at));
              && Reply(allowed, remaining, resetAt) == reply
              && Entry(entry.timestamps, entry.lastAccess) == after.entries[account]
    {
      allowed, remaining, resetAt := entry.Hit(limit, at);
      owner := owner[entry.buffer := account];
    }

    /** Replays the check on `entries`. */
    ghost method Mirror(before: Store, c: Call)
      requires Apart() && store.Keys == before.entries.Keys + {c.account} && lastCleanup == before.lastCleanup
      requires forall k :: k in before.entries && k != c.account ==>
                 before.entries[k] == Entry(store[k].timestamps, store[k].lastAccess)
      requires Checked(before, c).0.entries[c.account] ==
                 Entry(store[c.account].timestamps, store[c.account].lastAccess)
      modifies `entries
      ensures Apart() && Mirrored() && View() == Checked(before, c).0
    {
      entries := Checked(before, c).0.entries;
      CheckedPointwise(before, c);
    }

    /** One request: the answer and the new state are those of `MemoryStore.Step`. */
    method Check(account: Id, limit: int, cleanupAt: int, at: int)
        returns (allowed: bool, remaining: int, resetAt: int, ghost victims: set<Id>)
      requires Valid()
      modifies this, owner.Keys
      ensures Valid() && fresh(owner.Keys - old(owner.Keys))
      ensures LegalVictims(old(View()), cleanupAt, victims)
      ensures (View(), Reply(allowed, remaining, resetAt))
              == Step(old(View()), MemCall(cleanupAt, victims, Call(account, limit, at)))
    {
      victims := Cleanup(cleanupAt);
      allowed, remaining, resetAt := CheckEntry(account, limit, at);
    }
  }
}
