# Post-commit hook: a model in Dafny

This project models `PostCommitHookMixin` from django-post-commit-hook. The
mixin is a notification coalescer for Django models. A model instance can be
saved several times inside one atomic block. The mixin reports the net change
to the model's `post_commit_hook` exactly once, after the transaction commits.
A save made outside any transaction is reported at once.

The model has three modules:

- `ChangeSets` (`changesets.dfy`) defines change-sets as maps from field names
  to previous values. It also defines the no-op filter of `save` and the merge
  `new.update(cached)`, in which the older value wins. `Net` is a separate,
  pointwise definition of what a whole transaction should coalesce to: every
  touched field, with the previous value reported by the first save that got
  through the no-op filter and touched it. A previous value reported only by a
  suppressed save is lost: if a save changing only `date_updated` comes first,
  the `date_updated` value reported is the one from the next save that gets
  through (`SuppressedSaveValueLost`).
- `PostCommitHook` (`post_commit_hook.dfy`) defines the cache key
  (class name, id, thread id), the tracker checks done at construction, and
  the class `Coalescer`. Its three fields are changed in place: the
  module-level `model_tracker_cache`, the log of `post_commit_hook` calls, and
  the queue of `on_commit` callbacks. Its methods are `Save`,
  `PostAtomicCommitHandler`, `Commit`, `Rollback` and `Expire`. Each method's
  contract ties the new state to a step function over a `State` value
  (`SaveStep`, `HandlerStep`, `Replay`, `CommitStep`, `RollbackStep`).
  `Expire` states its new state directly. Each method also keeps the
  invariant that the cache holds no empty change-set.
- `HookProperties` (`hook_properties.dfy`) proves the hook's promises about
  those step functions:
  - no-op suppression;
  - immediate delivery outside a transaction, with the `created` flag;
  - the merge inside one;
  - coalescing over any number of saves;
  - exactly-once delivery however many callbacks were registered;
  - isolation between threads;
  - the consequence of calling the hook before popping the entry.

No line of the module removes a cache entry on rollback. The comment at
`django_post_commit_hook.py:8` leaves entries of transactions that never
commit to the expiring dictionary. A rolled-back entry therefore stays in the
cache until it expires. Until then, a later atomic save of the same instance on
the same thread merges its change-set into that stale entry, and the next
commit reports the rolled-back change too. `RollbackStep` keeps the cache as it
is. `StaleEntryAfterRollback` shows the stale merge on a concrete instance.
`RolledBackInstanceNotDelivered` shows that an instance touched only by the
rolled-back transaction is not delivered by any later run of events, as long as
none of its events saves that instance. Such a run may hold any number of saves
of other instances, commits, rollbacks and evictions.

## Model

| member | source | states |
|---|---|---|
| `ChangeSets.NoOpIffOnlyHousekeeping` | django_post_commit_hook.py:47-50 | a save is suppressed exactly when every changed field is `date_updated` (including the empty change-set) |
| `ChangeSets.IsNoOp` | django_post_commit_hook.py:47-48 | the no-op filter of `save`; `NoOpIffOnlyHousekeeping` characterises it as "every changed field is `date_updated`" |
| `ChangeSets.DateUpdatedWithOtherIsDelivered` | django_post_commit_hook.py:47-48 | `date_updated` together with any other changed field is not suppressed |
| `ChangeSets.Merge` | django_post_commit_hook.py:54-57 | the merged change-set has the union of both key sets; every cached (older) field keeps its cached value; fields only in the new change-set keep the new value |
| `ChangeSets.SuppressedSaveValueLost` | django_post_commit_hook.py:47-50 | a suppressed save reaches neither the cache nor the net change: after a `date_updated`-only save, the `date_updated` value reported is the next non-suppressed save's |
| `ChangeSets.NetSnoc` | django_post_commit_hook.py:54-57 | appending a save to a transaction merges its change-set under the net change so far, or leaves it unchanged when the save is suppressed |
| `PostCommitHook.CacheKey` | django_post_commit_hook.py:84-87 | the key keeps class name, id and thread id, so distinct triples never share an entry; `OtherThreadsUntouched` and `OtherThreadsNotRead` draw the isolation between threads from it |
| `PostCommitHook.Notify` | django_post_commit_hook.py:64-65 | the hook receives the change-set's field names, `created` exactly when `id` is among them, and the change-set itself (the same arguments as at lines 79-80) |
| `PostCommitHook.CheckTracker` | django_post_commit_hook.py:33-40 | construction succeeds iff a tracker exists and tracks `id`; a missing tracker is reported first, an untracked `id` second |
| `PostCommitHook.Coalescer.constructor` | django_post_commit_hook.py:10 | the cache starts empty, with no notification and no registered callback |
| `PostCommitHook.Coalescer.Save` | django_post_commit_hook.py:42-67 | the new cache, log and callback queue are those of `SaveStep` on the old ones; no empty entry is ever stored |
| `PostCommitHook.Coalescer.PostAtomicCommitHandler` | django_post_commit_hook.py:69-82 | the new state is that of `HandlerStep`: a non-empty entry is delivered and then popped; the call reports a raise iff the hook raised on a present entry, which then stays |
| `PostCommitHook.Coalescer.Commit` | django_post_commit_hook.py:61 | the registered callbacks run in registration order (the state is `Replay` of the queue), and the queue is then empty |
| `PostCommitHook.Coalescer.Rollback` | django_post_commit_hook.py:8-10 | a rollback drops the registered callbacks and leaves the cache and the log as they were |
| `PostCommitHook.Coalescer.Expire` | django_post_commit_hook.py:8-10 | the expiring dictionary removes one entry and changes nothing else |
| `HookProperties.NoOpSaveIsInert` | django_post_commit_hook.py:47-50 | a save whose changed fields are only `date_updated`, or none, changes neither the cache nor the callback queue nor the log |
| `HookProperties.AutonomousSaveNotifiesOnce` | django_post_commit_hook.py:63-65 | outside a transaction, a save that is not suppressed appends exactly one notification, carrying its field names and change-set, with `created` true iff `id` changed; the cache and the queue are untouched |
| `HookProperties.AtomicSaveMergesOlderWins` | django_post_commit_hook.py:54-57 | inside a transaction, an existing entry becomes the union of both key sets with every old field keeping its old value; one callback is registered, nothing is delivered, other keys are unchanged |
| `HookProperties.AtomicSaveInsertsFresh` | django_post_commit_hook.py:58-61 | inside a transaction, an absent key gets the change-set as it is; one callback is registered and nothing is delivered |
| `HookProperties.SaveKeepsNoEmptyEntries` | django_post_commit_hook.py:46-59 | no save ever stores an empty change-set in the cache |
| `HookProperties.OtherThreadsUntouched` | django_post_commit_hook.py:84-87 | a save or a callback on one thread does not write any entry whose key has another thread id |
| `HookProperties.OtherThreadsNotRead` | django_post_commit_hook.py:84-87 | a save or a callback on one thread does not read other threads' entries: states that differ only there give the same log, the same callback queue and the same entries for this thread |
| `HookProperties.HandlerOnAbsentKeyIsInert` | django_post_commit_hook.py:77-78 | a callback for a key with no entry changes neither the cache nor the log |
| `HookProperties.RaisingHookLeavesEntry` | django_post_commit_hook.py:78-82 | the hook runs before the pop: if it raises, the entry stays and the next callback delivers it a second time, then removes it |
| `HookProperties.ReplayOthers` | django_post_commit_hook.py:69-82 | callbacks for other instances deliver nothing for a key and leave its entry as it was |
| `HookProperties.ReplayDeliversOnce` | django_post_commit_hook.py:69-82 | N >= 1 callbacks for a key with a non-empty entry deliver exactly one notification for it, with the entry's contents; the key is then absent |
| `HookProperties.UnregisteredKeyNotDelivered` | django_post_commit_hook.py:61 | while no callback for a key is registered, any run of saves of other instances, commits, rollbacks and evictions delivers nothing for it and registers no callback for it |
| `HookProperties.RolledBackInstanceNotDelivered` | django_post_commit_hook.py:8-10 | after a rollback, no later run of events that does not save the instance delivers anything for it, whatever saves of other instances, commits, rollbacks and evictions the run holds |
| `HookProperties.StaleEntryAfterRollback` | django_post_commit_hook.py:54-61 | nothing removes a rolled-back entry: saving `title` in the next transaction merges into the rolled-back `status` entry, and the commit reports both |
| `HookProperties.CoalesceStep` | django_post_commit_hook.py:54-59 | one more save inside the transaction takes the entry from the net change of the earlier saves to the net change including this one |
| `HookProperties.SaveAllFrame` | django_post_commit_hook.py:52-61 | saves of one instance inside a transaction deliver nothing, register callbacks only for that instance and leave every other entry alone |
| `HookProperties.Coalescing` | django_post_commit_hook.py:52-61 | after any sequence of saves in one transaction, the entry holds each touched field with the previous value reported by the first save that got through the filter and touched it; the entry exists and has a callback iff some save was not suppressed |
| `HookProperties.TransactionDeliversNetOnce` | django_post_commit_hook.py:52-82 | saves then commit: exactly one notification for the instance, carrying the net change, `created` iff `id` was touched, and no entry left behind |
| `HookProperties.CreateThenUpdateScenario` | django_post_commit_hook.py:52-82 | an instance created and then updated in one transaction is delivered once, as created, with fields {id, status} and their values from before creation |

## Left out

- The underlying `super().save` write (line 43) is not modelled. Its only effect here is the instance id that `Save` receives.
- `self.tracker.changed()` (line 44) belongs to django-model-utils. Its result is the `changed` parameter of `Save`.
- Django's `in_atomic_block` and `on_commit` (lines 52-53 and 61) are not modelled. They become a boolean input and the `onCommit` queue. The transaction manager's commit and rollback become `Commit` and `Rollback`.
- The expiring dictionary's 30-second age limit and 5000-entry capacity (line 10) depend on wall-clock time and on library code. `Expire` removes any one entry at any time instead. The model does not capture which entry goes first or when.
- The race at lines 54-56 is not modelled: an entry could expire between the `get` and the subscript that follows it.
- `threading.get_ident()` (line 86) becomes the `threadId` parameter. Concurrency between threads is not modelled.
- The key's string formatting `'{}-{}-{}'` is not modelled. The key is a tuple.
- The instance id is an integer. Values are a small datatype standing for the previous values the tracker reports.
- The hook's own body (lines 89-91) is left out, including its `NotImplementedError` default. Each call is recorded as a `Notification` in the log.
- PostCommitHook.Coalescer.PostAtomicCommitHandler: takes the key the callback's instance would compute. The source recomputes `cache_key` from the instance's current id and the current thread when the callback runs. The model assumes both are unchanged since the save.
- PostCommitHook.Coalescer.Commit: runs every callback with a hook that returns normally. A raising hook is modelled for a single callback only, in `PostAtomicCommitHandler`. What Django does with the remaining callbacks after one raises belongs to the transaction manager.
- The mixin's tracker checks run once per instance in `__init__`. `CheckTracker` models them. `Save` requires the configuration they guarantee.
- The model keeps a single `onCommit` queue, with one `Commit` and one `Rollback` shared by every thread id. Django keeps on-commit callbacks per database connection, which is per thread. The model does not capture one thread's transaction committing while another thread's stays open.
- `Notification.fieldsChanged` is a set. The hook actually receives `fields_changed_dict.keys()` (lines 65 and 80), an insertion-ordered view. The model does not capture the order of the field names.
- `Rollback` rolls back the whole transaction. Nested atomic blocks (savepoints) are not modelled. In Django, rolling back a savepoint drops only the callbacks registered inside it. The cache entry keeps the savepoint's merged change, so a callback registered earlier in the outer block delivers that change at commit.
