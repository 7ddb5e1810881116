# Airbrake thread filter

A Dafny model of `Airbrake::Filters::ThreadFilter`, one stage of airbrake-ruby's
notice filter chain. When an error notice passes through it, the filter
collects the calling thread's context:

- its thread-local variables, leaving out values that are `IO` objects;
- its fiber-local variables, leaving out the two keys other libraries inject
  (`__recursive_key__`, `__rspec`) and `IO` values;
- its name;
- its `inspect` string, the `inspect` strings of its thread group, its
  priority and, off JRuby, its safe level.

The filter stores the result as a hash under `notice[:params][:thread]`.

Two modules make up the model:

- `RubyHash` (`ruby_hash.dfy`) models Ruby's insertion-ordered `Hash` with
  symbol keys. A hash is the list of its keys in insertion order plus a table
  from key to value. `Store` is `h[k] = v`: an existing key keeps its position,
  and a new key goes at the end.
- `Filters` (`thread_filter.dfy`) models the filter:
  - `ThreadVariables` and `FiberVariables` are the two private loops, each
    proved equal to a specification function.
  - `AddThreadInfo` and `BuildThreadInfo` insert the entries step by step.
  - The `ThreadFilter` class has the constant `weight`, and its `Call` method
    writes `notice.params`.
  - Lemmas state which keys `thread_info` holds, in which order, and with
    which values.

`FilterCases` (`thread_filter_cases.dfy`) states the specification's result for
two concrete threads.

The running thread is an input record, `ThreadState`. It carries:

- the thread variables, the fiber variables;
- whether the thread responds to `name`, and its name;
- its `inspect` string, its group, its priority and its safe level.

Two more inputs are parameters of `Call`:

- the `IO` type test, a predicate `isIO` on values;
- `Airbrake::JRUBY`, a boolean `jruby`.

`:name` is added when the thread responds to `name` and `th.name` is truthy
(line 38 of `lib/airbrake-ruby/filters/thread_filter.rb`). An empty string is
truthy in Ruby, so an empty name is still reported.

## Model

| member | source | states |
|---|---|---|
| Filters.IsIgnoredFiberVariable | lib/airbrake-ruby/filters/thread_filter.rb:13-19 | a key is ignored exactly when it is `__recursive_key__` or `__rspec` |
| Filters.ThreadFilter.constructor | lib/airbrake-ruby/filters/thread_filter.rb:21-23 | a new filter has weight 110; `weight` is a constant, so no call changes it |
| RubyHash.Store | lib/airbrake-ruby/filters/thread_filter.rb:52 | `h[k] = v` leaves the hash well formed and maps `k` to `v`; an existing key keeps its place and a new key is appended |
| RubyHash.StoreFrame | lib/airbrake-ruby/filters/thread_filter.rb:52 | `h[k] = v` adds only `k` and leaves the value of every other key as it was |
| RubyHash.StoreIdempotent | lib/airbrake-ruby/filters/thread_filter.rb:44 | storing the same value twice under one key is the same as storing it once, so filtering a notice twice leaves the same parameters as filtering it once |
| RubyHash.Any | lib/airbrake-ruby/filters/thread_filter.rb:29 | `any?` is true exactly when the hash has an entry |
| Filters.SanitizedContents | lib/airbrake-ruby/filters/thread_filter.rb:50-53 | the copying loop keeps exactly the visited keys that are not ignored and not `IO`-valued, each with its original value |
| Filters.SanitizedInOrder | lib/airbrake-ruby/filters/thread_filter.rb:50-53 | the keys the loop keeps appear in the order they were visited |
| Filters.SanitizedThreadVariables | lib/airbrake-ruby/filters/thread_filter.rb:49-54 | the thread variables reported are exactly those whose value is not an `IO`, with the same values, in the thread's order |
| Filters.SanitizedFiberVariables | lib/airbrake-ruby/filters/thread_filter.rb:56-62 | the fiber variables reported are exactly those not on the ignore-list whose value is not an `IO`, with the same values, in the thread's order; an ignored key is never reported, whatever its value |
| Filters.ThreadVariables | lib/airbrake-ruby/filters/thread_filter.rb:49-54 | the loop over the thread variables returns the sanitised thread variables |
| Filters.FiberVariables | lib/airbrake-ruby/filters/thread_filter.rb:56-62 | the loop over the fiber keys returns the sanitised fiber variables |
| Filters.GroupInspects | lib/airbrake-ruby/filters/thread_filter.rb:66 | the group entry has one string per group member, in the group's order, and string i is member i's `inspect` |
| Filters.WithThreadVariablesContents | lib/airbrake-ruby/filters/thread_filter.rb:29-31 | after the first insertion, `thread_info` holds `thread_variables` alone exactly when some thread variable survives, and then the sanitised thread variables |
| Filters.WithFiberVariablesContents | lib/airbrake-ruby/filters/thread_filter.rb:33-35 | the second insertion adds `fiber_variables` exactly when some fiber variable survives, holding the sanitised fiber variables, and keeps the `thread_variables` entry |
| Filters.VariablesAndNameOrder | lib/airbrake-ruby/filters/thread_filter.rb:27-40 | before `add_thread_info`, `thread_info` holds `thread_variables`, `fiber_variables` and `name` in that order, each only when its condition holds |
| Filters.VariablesAndNameContents | lib/airbrake-ruby/filters/thread_filter.rb:27-40 | before `add_thread_info`, each of those three keys is present exactly when its condition holds, and holds the sanitised hash or the name |
| Filters.VariablesAndNameDomain | lib/airbrake-ruby/filters/thread_filter.rb:27-40 | before `add_thread_info`, `thread_info` holds no key other than those three |
| Filters.WithMetadataFrame | lib/airbrake-ruby/filters/thread_filter.rb:64-70 | `add_thread_info` adds exactly `self`, `group`, `priority` and, off JRuby, `safe_level`; every other entry keeps its value |
| Filters.WithMetadataKeeps | lib/airbrake-ruby/filters/thread_filter.rb:64-70 | `add_thread_info` leaves any one key other than its own as it was |
| Filters.WithMetadataValues | lib/airbrake-ruby/filters/thread_filter.rb:64-70 | `add_thread_info` maps `self` to the thread's `inspect`, `group` to the members' `inspect`s, `priority` to the priority and, off JRuby, `safe_level` to the safe level |
| Filters.WithSelfGroupPriorityOrder | lib/airbrake-ruby/filters/thread_filter.rb:65-67 | when `self`, `group` and `priority` are absent, `add_thread_info` appends them in that order and adds no other key before `safe_level` |
| Filters.WithMetadataOrder | lib/airbrake-ruby/filters/thread_filter.rb:64-70 | when none of its keys is present yet, `add_thread_info` appends them in the order `self`, `group`, `priority`, `safe_level` |
| Filters.AddThreadInfo | lib/airbrake-ruby/filters/thread_filter.rb:64-70 | the successive stores of `add_thread_info` produce the metadata-extended hash |
| Filters.BuildThreadInfo | lib/airbrake-ruby/filters/thread_filter.rb:26-42 | the step-by-step construction in `call` produces the specified `thread_info` |
| Filters.AnyThreadVariables | lib/airbrake-ruby/filters/thread_filter.rb:29 | some thread variable survives sanitising exactly when one holds a non-`IO` value |
| Filters.AnyFiberVariables | lib/airbrake-ruby/filters/thread_filter.rb:33 | some fiber variable survives exactly when one that is not ignored holds a non-`IO` value |
| Filters.ThreadInfoKeyOrder | lib/airbrake-ruby/filters/thread_filter.rb:27-42 | `thread_info`'s keys are the present ones among `thread_variables`, `fiber_variables` and `name`, followed by `self`, `group`, `priority` and, off JRuby, `safe_level` |
| Filters.ThreadInfoOnlyKeys | lib/airbrake-ruby/filters/thread_filter.rb:27-42 | `thread_info` holds no key besides the seven the filter inserts |
| Filters.ThreadVariablesEntry | lib/airbrake-ruby/filters/thread_filter.rb:29-31 | `thread_variables` is present exactly when some thread variable has a non-`IO` value, and then holds the sanitised thread variables |
| Filters.FiberVariablesEntry | lib/airbrake-ruby/filters/thread_filter.rb:33-35 | `fiber_variables` is present exactly when some non-ignored fiber variable has a non-`IO` value, and then holds the sanitised fiber variables |
| Filters.NameEntry | lib/airbrake-ruby/filters/thread_filter.rb:37-40 | `name` is present exactly when the thread responds to `name` and its name is not nil (an empty name included), and then holds that name |
| Filters.MetadataEntries | lib/airbrake-ruby/filters/thread_filter.rb:65-67 | `self`, `group` and `priority` are always present, hold the thread's `inspect`, one `inspect` per group member in order, and the priority |
| Filters.SafeLevelEntry | lib/airbrake-ruby/filters/thread_filter.rb:69 | `safe_level` is present exactly when not on JRuby, and then holds the safe level |
| Filters.CallTwice | lib/airbrake-ruby/filters/thread_filter.rb:25-45 | filtering the same notice twice for the same thread leaves `notice[:params]` exactly as one call does |
| Filters.ThreadFilter.Call | lib/airbrake-ruby/filters/thread_filter.rb:25-45 | after `call`, `notice[:params][:thread]` is the freshly built `thread_info`; every other parameter keeps its presence and value; the key order changes only by appending `thread` when it was absent |
| FilterCases.WorkerThreadVariables | lib/airbrake-ruby/filters/thread_filter.rb:49-54 | a thread with the variable `role => "worker"` reports exactly that variable |
| FilterCases.WorkerFiberVariables | lib/airbrake-ruby/filters/thread_filter.rb:56-62 | fiber variables `__recursive_key__ => 1, request_id => "abc"` are reported as `request_id => "abc"` alone |
| FilterCases.WorkerCase | lib/airbrake-ruby/filters/thread_filter.rb:25-45 | that thread's `thread_info` holds both variable hashes and the metadata, and no name when there is none |
| FilterCases.StreamOnlyCase | lib/airbrake-ruby/filters/thread_filter.rb:29-31 | a thread whose only variable is an open stream gets no `thread_variables` entry at all |

## Left out

- Runtime introspection of `Thread.current` is not modelled. The thread's variables, name, `inspect`, group, priority and safe level are fields of the input record `ThreadState`.
- `inspect` formatting is not modelled: each string is taken as given.
- The `is_a?(IO)` test is the predicate parameter `isIO`, because the Ruby class hierarchy is not modelled.
- `Airbrake::JRUBY` is the boolean parameter `jruby`, because it is a platform constant.
- Filters.GroupInspects: `group.list` is taken as one snapshot. Threads joining or leaving the group while it is listed are not modelled, being concurrency.
- Hash keys are modelled as symbols only. A string key `"thread"` in `notice[:params]` would be a different key in Ruby, and it is not representable here.
- Filters.ThreadFilter.Call: `notice[:params]` is modelled as a value field of the notice. Some other object may hold a reference to the same params hash, and that aliasing is not modelled.
- Variable values are immutable values of a type parameter. A mutable object shared between the thread and the notice is not followed.
- The rest of the notice and the filter chain that orders filters by `weight` are not part of this model.
