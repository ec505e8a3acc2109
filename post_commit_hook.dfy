/**
 The post-commit hook mixin: a process-wide cache from (model class, instance id,
 thread id) to the change-set accumulated inside the open transaction, the save
 path that either notifies at once or merges into that cache and registers a
 commit callback, and the commit callback that delivers the cached change-set
 once and removes it.

 Each state-changing method of `Coalescer` except `Expire` is specified by a
 step function on a `State` value; module `HookProperties` states the hook's
 promises about those step functions.
 */
module PostCommitHook {
  import opened ChangeSets

  datatype Option<T> = None | Some(value: T)

  datatype Result<T, E> = Ok(value: T) | Err(error: E)

  /** The key of a cache entry: one instance of one model class inside one thread's transaction. */
  datatype Key = Key(className: string, id: int, threadId: int)

  /**
   The `cache_key` property, with the thread identifier passed in. The key keeps
   all three parts, so distinct (class, id, thread) triples never share an entry.
   */
  function CacheKey(className: string, id: int, threadId: int): (k: Key)
    ensures k.className == className && k.id == id && k.threadId == threadId
  {
    Key(className, id, threadId)
  }

  /** One call of the model's `post_commit_hook`, recorded with the key of the instance it was made on. */
  datatype Notification = Notification(key: Key, fieldsChanged: set<Field>, created: bool, originalValues: ChangeSet)

  /**
   The arguments both call sites pass to `post_commit_hook` for a change-set:
   its field names, `created` exactly when `id` is among them, and the
   change-set itself.
   */
  function Notify(key: Key, cs: ChangeSet): (n: Notification)
    ensures n.key == key && n.fieldsChanged == cs.Keys && n.originalValues == cs
    ensures n.created <==> IdField in cs
  {
    Notification(key, cs.Keys, IdField in cs, cs)
  }

  /** The configuration errors raised when a model instance is constructed. */
  datatype ConfigError = MissingTracker(className: string) | IdNotTracked(className: string)

  /** A model class using the mixin, with the fields its field tracker follows. */
  datatype Entity = Entity(className: string, trackedFields: set<Field>)

  /** What construction guarantees of every instance that exists. */
  predicate WellConfigured(e: Entity)
  {
    IdField in e.trackedFields
  }

  /** The checks of `__init__`: a tracker must exist and must track `id`. */
  function CheckTracker(className: string, tracker: Option<set<Field>>): (r: Result<Entity, ConfigError>)
    ensures r.Ok? <==> tracker.Some? && IdField in tracker.value
    ensures r.Ok? ==> WellConfigured(r.value) && r.value.className == className
    ensures tracker.None? ==> r == Err(MissingTracker(className))
    ensures tracker.Some? && !r.Ok? ==> r == Err(IdNotTracked(className))
  {
    match tracker
    case None => Err(MissingTracker(className))
    case Some(fields) =>
      if IdField !in fields then Err(IdNotTracked(className)) else Ok(Entity(className, fields))
  }

  /**
   Everything the hook can observe or change: the cache, the notifications
   delivered so far, and the callbacks registered with the open transaction.
   */
  datatype State = State(cache: map<Key, ChangeSet>, log: seq<Notification>, onCommit: seq<Key>)

  /** The cache never holds an empty change-set, since the no-op filter keeps those out. */
  predicate NoEmptyEntries(st: State)
  {
    forall k :: k in st.cache ==> st.cache[k] != map[]
  }

  /** The effect of one `save` after the underlying write. */
  function SaveStep(st: State, className: string, id: int, threadId: int, changed: ChangeSet, inAtomicBlock: bool): State
  {
    if IsNoOp(changed) then st
    else
      var key := CacheKey(className, id, threadId);
      if inAtomicBlock then
        var stored := if key in st.cache && st.cache[key] != map[] then Merge(changed, st.cache[key]) else changed;
        st.(cache := st.cache[key := stored], onCommit := st.onCommit + [key])
      else
        st.(log := st.log + [Notify(key, changed)])
  }

  /** The effect of one `post_atomic_commit_handler` call; `hookRaises` says whether the hook raised. */
  function HandlerStep(st: State, key: Key, hookRaises: bool): State
  {
    if key in st.cache && st.cache[key] != map[] then
      var delivered := st.log + [Notify(key, st.cache[key])];
      if hookRaises then st.(log := delivered)
      else st.(log := delivered, cache := st.cache - {key})
    else st
  }

  /** The registered callbacks run in registration order, each hook returning normally. */
  function Replay(st: State, keys: seq<Key>): State
  {
    if keys == [] then st
    else HandlerStep(Replay(st, keys[..|keys| - 1]), keys[|keys| - 1], false)
  }

  /** The transaction commits: every registered callback runs, then the queue is gone. */
  function CommitStep(st: State): State
  {
    Replay(st, st.onCommit).(onCommit := [])
  }

  /** The transaction rolls back: its callbacks are dropped; the cache is not touched. */
  function RollbackStep(st: State): State
  {
    st.(onCommit := [])
  }

  /** A sequence of saves of one instance inside one open transaction. */
  function SaveAllInTransaction(st: State, className: string, id: int, threadId: int, saves: seq<ChangeSet>): State
  {
    if saves == [] then st
    else SaveStep(SaveAllInTransaction(st, className, id, threadId, saves[..|saves| - 1]),
                  className, id, threadId, saves[|saves| - 1], true)
  }

  /** The notifications of `log` made for the instance and thread of `key`, in order. */
  function Deliveries(log: seq<Notification>, key: Key): seq<Notification>
  {
    if log == [] then []
    else Deliveries(log[..|log| - 1], key) + (if log[|log| - 1].key == key then [log[|log| - 1]] else [])
  }

  /** The cache, the notification log and the transaction's callback queue, updated in place. */
  class Coalescer {
    var cache: map<Key, ChangeSet>
    var log: seq<Notification>
    var onCommit: seq<Key>

    function Snapshot(): State
      reads this
    {
      State(cache, log, onCommit)
    }

    predicate Valid()
      reads this
    {
      NoEmptyEntries(Snapshot())
    }

    /** The module-level cache starts empty; no notification has been made and no callback registered. */
    constructor ()
      ensures Valid()
      ensures Snapshot() == State(map[], [], [])
    {
      cache := map[];
      log := [];
      onCommit := [];
    }

    /** `PostCommitHookMixin.save` for instance `id` of `e`, with the tracker's change-set and the transaction flag as inputs. */
    method Save(e: Entity, id: int, threadId: int, changed: ChangeSet, inAtomicBlock: bool)
      requires Valid() && WellConfigured(e)
      modifies this
      ensures Valid()
      ensures Snapshot() == SaveStep(old(Snapshot()), e.className, id, threadId, changed, inAtomicBlock)
    {
      if IsNoOp(changed) {
        return;
      }
      var key := CacheKey(e.className, id, threadId);
      if inAtomicBlock {
        if key in cache && cache[key] != map[] {
          var merged := Merge(changed, cache[key]);
          cache := cache[key := merged];
        } else {
          cache := cache[key := changed];
        }
        onCommit := onCommit + [key];
      } else {
        log := log + [Notify(key, changed)];
      }
    }

    /**
     `post_atomic_commit_handler` for the instance whose key is `key`. The hook is
     called before the entry is popped, so a hook that raises leaves the entry.
     */
    method PostAtomicCommitHandler(key: Key, hookRaises: bool) returns (raised: bool)
      requires Valid()
      modifies this
      ensures Valid()
      ensures raised <==> hookRaises && key in old(cache)
      ensures Snapshot() == HandlerStep(old(Snapshot()), key, hookRaises)
    {
      raised := false;
      if key in cache && cache[key] != map[] {
        var changed := cache[key];
        log := log + [Notify(key, changed)];
        if hookRaises {
          raised := true;
          return;
        }
        cache := cache - {key};
      }
    }

    /** The transaction manager runs the registered callbacks in order after a durable commit. */
    method Commit()
      requires Valid()
      modifies this
      ensures Valid()
      ensures Snapshot() == CommitStep(old(Snapshot()))
    {
      var pending := onCommit;
      var i := 0;
      while i < |pending|
        invariant 0 <= i <= |pending|
        invariant Valid()
        invariant Snapshot() == Replay(old(Snapshot()), pending[..i])
      {
        assert pending[..i + 1][..i] == pending[..i];
        var _ := PostAtomicCommitHandler(pending[i], false);
        i := i + 1;
      }
      assert pending[..i] == pending;
      onCommit := [];
    }

    /** The transaction rolls back: its callbacks never run. */
    method Rollback()
      requires Valid()
      modifies this
      ensures Valid()
      ensures Snapshot() == RollbackStep(old(Snapshot()))
    {
      onCommit := [];
    }

    /** The expiring dictionary drops an entry, by age or by capacity. */
    method Expire(key: Key)
      requires Valid()
      modifies this
      ensures Valid()
      ensures Snapshot() == old(Snapshot()).(cache := old(cache) - {key})
    {
      cache := cache - {key};
    }
  }
}
