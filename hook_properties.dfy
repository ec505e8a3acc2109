/**
 What the post-commit hook promises, stated over the step functions that
 specify `Coalescer`'s methods: no-op suppression, immediate delivery outside
 a transaction, coalescing inside one, exactly-once delivery at commit, and
 isolation between threads.
 */
module HookProperties {
  import opened ChangeSets
  import opened PostCommitHook

  /** Nothing changes for a suppressed save: no cache write, no callback, no notification. */
  lemma NoOpSaveIsInert(st: State, className: string, id: int, threadId: int, changed: ChangeSet, inAtomicBlock: bool)
    requires changed.Keys <= {DateUpdatedField}
    ensures SaveStep(st, className, id, threadId, changed, inAtomicBlock) == st
  {
    NoOpIffOnlyHousekeeping(changed);
  }

  /**
   Outside a transaction a save that gets through the filter makes exactly one
   notification, carrying its fields and its change-set, with `created` set iff
   `id` changed; the cache and the callback queue are untouched.
   */
  lemma AutonomousSaveNotifiesOnce(st: State, className: string, id: int, threadId: int, changed: ChangeSet)
    requires !(changed.Keys <= {DateUpdatedField})
    ensures var r := SaveStep(st, className, id, threadId, changed, false);
      && r.cache == st.cache
      && r.onCommit == st.onCommit
      && |r.log| == |st.log| + 1
      && r.log[..|st.log|] == st.log
      && r.log[|st.log|].key == CacheKey(className, id, threadId)
      && r.log[|st.log|].fieldsChanged == changed.Keys
      && r.log[|st.log|].originalValues == changed
      && (r.log[|st.log|].created <==> IdField in changed)
  {
    NoOpIffOnlyHousekeeping(changed);
    var r := SaveStep(st, className, id, threadId, changed, false);
    assert r.log == st.log + [Notify(CacheKey(className, id, threadId), changed)];
  }

  /**
   Inside a transaction, a save of an instance that already has an entry stores
   the union of both change-sets in which every cached field keeps its older
   value, registers one callback and notifies nobody; other keys are untouched.
   */
  lemma AtomicSaveMergesOlderWins(st: State, className: string, id: int, threadId: int, changed: ChangeSet)
    requires NoEmptyEntries(st)
    requires !(changed.Keys <= {DateUpdatedField})
    requires CacheKey(className, id, threadId) in st.cache
    ensures var key := CacheKey(className, id, threadId);
      var r := SaveStep(st, className, id, threadId, changed, true);
      && key in r.cache
      && r.cache[key].Keys == st.cache[key].Keys + changed.Keys
      && (forall f :: f in st.cache[key] ==> r.cache[key][f] == st.cache[key][f])
      && (forall f :: f in changed && f !in st.cache[key] ==> r.cache[key][f] == changed[f])
      && r.log == st.log
      && r.onCommit == st.onCommit + [key]
      && (forall k :: k != key ==> (k in r.cache <==> k in st.cache))
      && (forall k :: k != key && k in st.cache ==> r.cache[k] == st.cache[k])
  {
    NoOpIffOnlyHousekeeping(changed);
  }

  /**
   Inside a transaction, a save of an instance without an entry stores its
   change-set as it is, registers one callback and notifies nobody.
   */
  lemma AtomicSaveInsertsFresh(st: State, className: string, id: int, threadId: int, changed: ChangeSet)
    requires !(changed.Keys <= {DateUpdatedField})
    requires CacheKey(className, id, threadId) !in st.cache
    ensures var key := CacheKey(className, id, threadId);
      var r := SaveStep(st, className, id, threadId, changed, true);
      && r.cache == st.cache[key := changed]
      && r.log == st.log
      && r.onCommit == st.onCommit + [key]
  {
    NoOpIffOnlyHousekeeping(changed);
  }

  /** A save keeps the cache free of empty entries. */
  lemma SaveKeepsNoEmptyEntries(st: State, className: string, id: int, threadId: int, changed: ChangeSet, inAtomicBlock: bool)
    requires NoEmptyEntries(st)
    ensures NoEmptyEntries(SaveStep(st, className, id, threadId, changed, inAtomicBlock))
  {
  }

  /**
   Saves and callbacks on one thread never write the entries of another
   thread, since the thread identifier is part of the key.
   */
  lemma OtherThreadsUntouched(st: State, className: string, id: int, threadId: int, changed: ChangeSet,
                              inAtomicBlock: bool, hookRaises: bool, k: Key)
    requires k.threadId != threadId
    ensures var r := SaveStep(st, className, id, threadId, changed, inAtomicBlock);
      (k in r.cache <==> k in st.cache) && (k in st.cache ==> r.cache[k] == st.cache[k])
    ensures var r := HandlerStep(st, CacheKey(className, id, threadId), hookRaises);
      (k in r.cache <==> k in st.cache) && (k in st.cache ==> r.cache[k] == st.cache[k])
  {
  }

  /** The two caches hold the same entries for every key of thread `threadId`. */
  ghost predicate AgreeOnThread(c1: map<Key, ChangeSet>, c2: map<Key, ChangeSet>, threadId: int)
  {
    forall k: Key :: k.threadId == threadId ==>
      (k in c1 <==> k in c2) && (k in c1 ==> c1[k] == c2[k])
  }

  /**
   Saves and callbacks on one thread do not read the entries of another
   thread: two states that differ only in other threads' entries lead to the
   same log, the same callback queue and the same entries for this thread.
   */
  lemma OtherThreadsNotRead(st1: State, st2: State, className: string, id: int, threadId: int,
                            changed: ChangeSet, inAtomicBlock: bool, hookRaises: bool)
    requires st1.log == st2.log && st1.onCommit == st2.onCommit
    requires AgreeOnThread(st1.cache, st2.cache, threadId)
    ensures var r1 := SaveStep(st1, className, id, threadId, changed, inAtomicBlock);
      var r2 := SaveStep(st2, className, id, threadId, changed, inAtomicBlock);
      r1.log == r2.log && r1.onCommit == r2.onCommit && AgreeOnThread(r1.cache, r2.cache, threadId)
    ensures var r1 := HandlerStep(st1, CacheKey(className, id, threadId), hookRaises);
      var r2 := HandlerStep(st2, CacheKey(className, id, threadId), hookRaises);
      r1.log == r2.log && r1.onCommit == r2.onCommit && AgreeOnThread(r1.cache, r2.cache, threadId)
  {
  }

  /** A callback for an instance without an entry changes nothing. */
  lemma HandlerOnAbsentKeyIsInert(st: State, key: Key, hookRaises: bool)
    requires key !in st.cache
    ensures HandlerStep(st, key, hookRaises) == st
  {
  }

  /**
   The hook is called before the entry is popped: when it raises, the entry
   stays, and the next callback for the same instance delivers it again.
   */
  lemma RaisingHookLeavesEntry(st: State, key: Key)
    requires key in st.cache && st.cache[key] != map[]
    ensures var once := HandlerStep(st, key, true);
      && once.cache == st.cache
      && once.log == st.log + [Notify(key, st.cache[key])]
      && HandlerStep(once, key, false).log == st.log + [Notify(key, st.cache[key]), Notify(key, st.cache[key])]
      && key !in HandlerStep(once, key, false).cache
  {
  }

  lemma {:induction false} DeliveriesAppend(a: seq<Notification>, b: seq<Notification>, key: Key)
    ensures Deliveries(a + b, key) == Deliveries(a, key) + Deliveries(b, key)
  {
    if b != [] {
      var b' := b[..|b| - 1];
      assert (a + b)[..|a + b| - 1] == a + b';
      DeliveriesAppend(a, b', key);
    } else {
      assert a + b == a;
    }
  }

  /** Replaying callbacks only appends to the log and never adds a cache entry. */
  lemma {:induction false} ReplayExtends(st: State, keys: seq<Key>)
    ensures var r := Replay(st, keys);
      |st.log| <= |r.log| && r.log[..|st.log|] == st.log && r.cache.Keys <= st.cache.Keys && r.onCommit == st.onCommit
  {
    if keys != [] {
      ReplayExtends(st, keys[..|keys| - 1]);
    }
  }

  /** Deliveries since `a` split at an intermediate log `b`, when `a` is a prefix of `b` and `b` of `c`. */
  lemma DeliveriesSince(a: seq<Notification>, b: seq<Notification>, c: seq<Notification>, key: Key)
    requires |a| <= |b| <= |c| && b[..|a|] == a && c[..|b|] == b
    ensures Deliveries(c[|a|..], key) == Deliveries(b[|a|..], key) + Deliveries(c[|b|..], key)
  {
    assert c[|a|..] == b[|a|..] + c[|b|..];
    DeliveriesAppend(b[|a|..], c[|b|..], key);
  }

  /** One callback with a hook that returns: what it delivers for `key` and what it does to `key`'s entry. */
  lemma HandlerStepDeliveries(st: State, last: Key, key: Key)
    ensures var r := HandlerStep(st, last, false);
      && |st.log| <= |r.log| && r.log[..|st.log|] == st.log
      && Deliveries(r.log[|st.log|..], key)
           == (if last == key && key in st.cache && st.cache[key] != map[] then [Notify(key, st.cache[key])] else [])
      && (last == key ==> key !in r.cache || r.cache[key] == map[])
      && (last != key ==> (key in r.cache <==> key in st.cache) && (key in st.cache ==> r.cache[key] == st.cache[key]))
  {
    var r := HandlerStep(st, last, false);
    var added := r.log[|st.log|..];
    if last in st.cache && st.cache[last] != map[] {
      assert added == [Notify(last, st.cache[last])];
      assert Deliveries(added, key) == Deliveries([], key) + (if last == key then added else []);
    } else {
      assert added == [];
    }
  }

  /** Replaying callbacks for other instances neither delivers nor touches `key`'s entry. */
  lemma {:induction false} ReplayOthers(st: State, keys: seq<Key>, key: Key)
    requires key !in keys
    ensures var r := Replay(st, keys);
      && |st.log| <= |r.log|
      && Deliveries(r.log[|st.log|..], key) == []
      && (key in r.cache <==> key in st.cache)
      && (key in st.cache ==> r.cache[key] == st.cache[key])
  {
    if keys == [] {
      assert st.log[|st.log|..] == [];
    } else {
      var prefix := keys[..|keys| - 1];
      var mid := Replay(st, prefix);
      ReplayOthers(st, prefix, key);
      ReplayExtends(st, prefix);
      HandlerStepDeliveries(mid, keys[|keys| - 1], key);
      DeliveriesSince(st.log, mid.log, Replay(st, keys).log, key);
    }
  }

  /**
   Exactly once: however many callbacks for `key` the transaction registered
   (at least one), replaying them delivers exactly one notification for it,
   carrying the cached change-set, and leaves no entry behind.
   */
  lemma {:induction false} ReplayDeliversOnce(st: State, keys: seq<Key>, key: Key)
    requires key in keys && key in st.cache && st.cache[key] != map[]
    ensures var r := Replay(st, keys);
      && |st.log| <= |r.log|
      && Deliveries(r.log[|st.log|..], key) == [Notify(key, st.cache[key])]
      && key !in r.cache
  {
    var prefix := keys[..|keys| - 1];
    var last := keys[|keys| - 1];
    var mid := Replay(st, prefix);
    var r := HandlerStep(mid, last, false);
    assert Replay(st, keys) == r;
    ReplayExtends(st, prefix);
    HandlerStepDeliveries(mid, last, key);
    DeliveriesSince(st.log, mid.log, r.log, key);
    if key in prefix {
      ReplayDeliversOnce(st, prefix, key);
      assert Deliveries(r.log[|mid.log|..], key) == [];
    } else {
      assert last == key by {
        assert keys == prefix + [last];
      }
      ReplayOthers(st, prefix, key);
      assert Deliveries(mid.log[|st.log|..], key) == [];
      assert mid.cache[key] == st.cache[key];
    }
  }

  /** One more save inside the transaction moves the entry from the net change of `prefix` to that of `prefix + [s]`. */
  lemma CoalesceStep(st: State, className: string, id: int, threadId: int, prefix: seq<ChangeSet>, s: ChangeSet)
    requires var key := CacheKey(className, id, threadId);
      && (key in st.cache <==> Touched(prefix) != {})
      && (key in st.cache ==> st.cache[key] == Net(prefix))
    ensures var key := CacheKey(className, id, threadId);
      var r := SaveStep(st, className, id, threadId, s, true);
      && (key in r.cache <==> Touched(prefix + [s]) != {})
      && (key in r.cache ==> r.cache[key] == Net(prefix + [s]))
  {
    var key := CacheKey(className, id, threadId);
    TouchedSnoc(prefix, s);
    NetSnoc(prefix, s);
    if !IsNoOp(s) {
      assert s != map[];
      var f :| f in s;
      assert f in Touched(prefix + [s]);
      if key in st.cache {
        assert Net(prefix) != map[] by {
          var g :| g in Touched(prefix);
          assert g in Net(prefix);
        }
      } else {
        assert Net(prefix) == map[];
        assert Merge(s, map[]) == s;
      }
    }
  }

  /**
   Saves of one instance inside a transaction deliver nothing, register
   callbacks only for that instance, and leave every other entry alone.
   */
  lemma {:induction false} SaveAllFrame(st: State, className: string, id: int, threadId: int, saves: seq<ChangeSet>)
    ensures var key := CacheKey(className, id, threadId);
      var r := SaveAllInTransaction(st, className, id, threadId, saves);
      && r.log == st.log
      && (forall k :: k in r.onCommit ==> k in st.onCommit || k == key)
      && (forall k :: k != key ==> (k in r.cache <==> k in st.cache))
      && (forall k :: k != key && k in st.cache ==> r.cache[k] == st.cache[k])
  {
    if saves != [] {
      SaveAllFrame(st, className, id, threadId, saves[..|saves| - 1]);
    }
  }

  /**
   Coalescing: after any sequence of saves of one instance inside one
   transaction, starting without an entry, the entry holds the net change of
   those saves (each touched field with the previous value reported by the
   first save that got through the filter and touched it), and it exists,
   with a callback registered for it, iff some save got through the filter.
   */
  lemma {:induction false} Coalescing(st: State, className: string, id: int, threadId: int, saves: seq<ChangeSet>)
    requires CacheKey(className, id, threadId) !in st.cache
    ensures var key := CacheKey(className, id, threadId);
      var r := SaveAllInTransaction(st, className, id, threadId, saves);
      && (key in r.cache <==> Touched(saves) != {})
      && (key in r.cache ==> r.cache[key] == Net(saves))
      && (Touched(saves) != {} ==> key in r.onCommit)
  {
    var key := CacheKey(className, id, threadId);
    if saves == [] {
      assert Touched(saves) == {};
    } else {
      var prefix := saves[..|saves| - 1];
      var s := saves[|saves| - 1];
      assert saves == prefix + [s];
      Coalescing(st, className, id, threadId, prefix);
      CoalesceStep(SaveAllInTransaction(st, className, id, threadId, prefix), className, id, threadId, prefix, s);
      TouchedSnoc(prefix, s);
    }
  }

  /**
   End to end: a transaction whose saves of one instance are not all
   suppressed, then a commit, delivers exactly one notification for that
   instance, with the net change of the transaction and `created` set iff
   `id` was among the touched fields, and leaves no entry behind.
   */
  lemma TransactionDeliversNetOnce(st: State, className: string, id: int, threadId: int, saves: seq<ChangeSet>)
    requires CacheKey(className, id, threadId) !in st.cache
    requires exists i :: 0 <= i < |saves| && !IsNoOp(saves[i])
    ensures var key := CacheKey(className, id, threadId);
      var r := CommitStep(SaveAllInTransaction(st, className, id, threadId, saves));
      && |st.log| <= |r.log|
      && Deliveries(r.log[|st.log|..], key) == [Notification(key, Touched(saves), IdField in Touched(saves), Net(saves))]
      && key !in r.cache
      && r.onCommit == []
  {
    var key := CacheKey(className, id, threadId);
    TouchedNonEmpty(saves);
    Coalescing(st, className, id, threadId, saves);
    SaveAllFrame(st, className, id, threadId, saves);
    var mid := SaveAllInTransaction(st, className, id, threadId, saves);
    assert Net(saves) != map[] by {
      var g :| g in Touched(saves);
      assert g in Net(saves);
    }
    ReplayDeliversOnce(mid, mid.onCommit, key);
  }

  /** One event of a run of the hook: a save, a commit, a rollback, or an eviction from the cache. */
  datatype Event =
    | SaveEvent(className: string, id: int, threadId: int, changed: ChangeSet, inAtomicBlock: bool)
    | CommitEvent
    | RollbackEvent
    | ExpireEvent(expired: Key)

  /** The state after one event. */
  function Apply(st: State, e: Event): State
  {
    match e
    case SaveEvent(c, i, t, changed, atomic) => SaveStep(st, c, i, t, changed, atomic)
    case CommitEvent => CommitStep(st)
    case RollbackEvent => RollbackStep(st)
    case ExpireEvent(k) => st.(cache := st.cache - {k})
  }

  /** The state after `events`, applied in order. */
  function Run(st: State, events: seq<Event>): State
  {
    if events == [] then st
    else Apply(Run(st, events[..|events| - 1]), events[|events| - 1])
  }

  /** `e` is not a save of the instance whose key is `key`. */
  predicate NotASaveOf(e: Event, key: Key)
  {
    e.SaveEvent? ==> CacheKey(e.className, e.id, e.threadId) != key
  }

  /** No event of `events` saves the instance whose key is `key`. */
  predicate SavesOnlyOthers(events: seq<Event>, key: Key)
  {
    forall i :: 0 <= i < |events| ==> NotASaveOf(events[i], key)
  }

  /** One event that does not save `key`'s instance, with no callback for `key` registered, delivers nothing for it. */
  lemma ApplyUnregistered(st: State, e: Event, key: Key)
    requires key !in st.onCommit && NotASaveOf(e, key)
    ensures var r := Apply(st, e);
      && |st.log| <= |r.log| && r.log[..|st.log|] == st.log
      && Deliveries(r.log[|st.log|..], key) == []
      && key !in r.onCommit
  {
    var r := Apply(st, e);
    match e
    case SaveEvent(c, i, t, changed, atomic) =>
      var added := r.log[|st.log|..];
      if !atomic && !IsNoOp(changed) {
        assert added == [Notify(CacheKey(c, i, t), changed)];
        assert Deliveries(added, key) == Deliveries([], key) + [];
      } else {
        assert added == [];
      }
    case CommitEvent =>
      ReplayOthers(st, st.onCommit, key);
      ReplayExtends(st, st.onCommit);
    case RollbackEvent =>
      assert r.log[|st.log|..] == [];
    case ExpireEvent(k) =>
      assert r.log[|st.log|..] == [];
  }

  /**
   While no callback for `key` is registered and no event saves its instance,
   no run delivers anything for it, however many saves of other instances,
   commits, rollbacks and evictions it holds; and still no callback for it
   is registered at the end.
   */
  lemma {:induction false} UnregisteredKeyNotDelivered(st: State, events: seq<Event>, key: Key)
    requires key !in st.onCommit
    requires SavesOnlyOthers(events, key)
    ensures var r := Run(st, events);
      && |st.log| <= |r.log| && r.log[..|st.log|] == st.log
      && Deliveries(r.log[|st.log|..], key) == []
      && key !in r.onCommit
  {
    if events == [] {
      assert st.log[|st.log|..] == [];
    } else {
      var prefix := events[..|events| - 1];
      assert SavesOnlyOthers(prefix, key) by {
        forall i | 0 <= i < |prefix| ensures prefix[i] == events[i] { }
      }
      UnregisteredKeyNotDelivered(st, prefix, key);
      var mid := Run(st, prefix);
      assert NotASaveOf(events[|events| - 1], key);
      ApplyUnregistered(mid, events[|events| - 1], key);
      DeliveriesSince(st.log, mid.log, Run(st, events).log, key);
    }
  }

  /**
   A transaction that rolls back delivers nothing for the instances only it
   touched: after the rollback, no run of later saves of other instances,
   commits, rollbacks and evictions makes a notification for `key`.
   */
  lemma RolledBackInstanceNotDelivered(st: State, key: Key, events: seq<Event>)
    requires SavesOnlyOthers(events, key)
    ensures var r := Run(RollbackStep(st), events);
      |st.log| <= |r.log| && Deliveries(r.log[|st.log|..], key) == []
  {
    UnregisteredKeyNotDelivered(RollbackStep(st), events, key);
  }

  /**
   The rolled-back entry is not removed: when the same instance is saved on
   the same thread in the next transaction before the entry expires, the new
   change-set is merged into it, and the commit reports the rolled-back
   `status` change together with the new `title` change.
   */
  lemma StaleEntryAfterRollback(st: State, id: int, threadId: int)
    requires CacheKey("Order", id, threadId) !in st.cache
    ensures var key := CacheKey("Order", id, threadId);
      var rolledBack := RollbackStep(SaveStep(st, "Order", id, threadId, map["status" := Text("draft")], true));
      var next := SaveStep(rolledBack, "Order", id, threadId, map["title" := Text("a")], true);
      CommitStep(next).log == st.log + [Notify(key, map["title" := Text("a"), "status" := Text("draft")])]
  {
    var key := CacheKey("Order", id, threadId);
    var first: ChangeSet := map["status" := Text("draft")];
    var second: ChangeSet := map["title" := Text("a")];
    assert !IsNoOp(first) by {
      assert |first| == 1 && DateUpdatedField !in first;
    }
    assert !IsNoOp(second) by {
      assert |second| == 1 && DateUpdatedField !in second;
    }
    var next := SaveStep(RollbackStep(SaveStep(st, "Order", id, threadId, first, true)), "Order", id, threadId, second, true);
    assert next.onCommit == [key];
    assert next.cache[key] == Merge(second, first);
    var merged := map["title" := Text("a"), "status" := Text("draft")];
    assert Merge(second, first) == merged;
    assert [key][..0] == [];
    assert Replay(next, [key]) == HandlerStep(next, key, false);
    assert HandlerStep(next, key, false).log == st.log + [Notify(key, merged)];
  }

  /**
   The create-then-update scenario: an instance created (its `id` and `status`
   reported with no previous value) and then updated (`status` reported as
   "draft") inside one transaction is delivered once at commit as created,
   with fields {id, status} and the values from before creation.
   */
  lemma CreateThenUpdateScenario(st: State, id: int, threadId: int)
    requires CacheKey("Order", id, threadId) !in st.cache
    ensures var key := CacheKey("Order", id, threadId);
      var saves := [map["id" := Null, "status" := Null], map["status" := Text("draft")]];
      var r := CommitStep(SaveAllInTransaction(st, "Order", id, threadId, saves));
      |st.log| <= |r.log| &&
      Deliveries(r.log[|st.log|..], key)
        == [Notification(key, {"id", "status"}, true, map["id" := Null, "status" := Null])]
  {
    var create: ChangeSet := map["id" := Null, "status" := Null];
    var update: ChangeSet := map["status" := Text("draft")];
    var saves := [create, update];
    assert "id" in create;
    assert !IsNoOp(saves[0]);
    TouchedSnoc([create], update);
    TouchedSnoc([], create);
    assert [create] == [] + [create];
    assert saves == [create] + [update];
    assert !IsNoOp(update) by {
      assert |update| == 1;
      assert DateUpdatedField !in update;
    }
    assert Touched(saves) == {"id", "status"};
    assert Net(saves) == map["id" := Null, "status" := Null] by {
      assert FirstValue(saves, "id") == Null;
      assert FirstValue(saves, "status") == Null;
    }
    TransactionDeliversNetOnce(st, "Order", id, threadId, saves);
  }
}
