/** Airbrake's thread filter: one stage of the notice filter chain that attaches
    the calling thread's thread-local and fiber-local variables, its name and
    its scheduling metadata to `notice[:params][:thread]`. */
module Filters {
  import opened RubyHash

  datatype Option<T> = None | Some(value: T)

  /** Fiber-local keys that other libraries inject and that are never reported. */
  const IGNORED_FIBER_VARIABLES: seq<Symbol> := ["__recursive_key__", "__rspec"]

  /** The keys `thread_info` may hold, in the order the filter inserts them. */
  const THREAD_VARIABLES: Symbol := "thread_variables"
  const FIBER_VARIABLES: Symbol := "fiber_variables"
  const NAME: Symbol := "name"
  const SELF: Symbol := "self"
  const GROUP: Symbol := "group"
  const PRIORITY: Symbol := "priority"
  const SAFE_LEVEL: Symbol := "safe_level"

  /** The key of `notice[:params]` the filter writes. */
  const THREAD: Symbol := "thread"

  /** A member of the thread's group, seen through its `inspect` string. */
  datatype ThreadRef = ThreadRef(inspect: string)

  /** What the filter reads from `Thread.current`. Values are Ruby objects of type `V`. */
  datatype ThreadState<V> = ThreadState(
    threadVariables: Hash<V>,  // `thread_variables`, each read with `thread_variable_get`
    fiberVariables: Hash<V>,   // `keys`, each read with `th[key]`
    respondsToName: bool,              // `respond_to?(:name)` (Ruby 2.3 and later)
    name: Option<string>,              // `name`, `None` for nil
    inspect: string,                   // `inspect`
    group: seq<ThreadRef>,             // `group.list`
    priority: int,                     // `priority`
    safeLevel: int)                    // `safe_level`
  {
    ghost predicate Valid()
    {
      threadVariables.Valid() && fiberVariables.Valid()
    }
  }

  /** A value stored in `thread_info`. */
  datatype InfoValue<V> =
    | Variables(vars: Hash<V>)
    | Text(text: string)
    | Texts(items: seq<string>)
    | Integer(n: int)

  /** A value stored in `notice[:params]`: a thread-info hash this filter wrote,
      or any other object. */
  datatype ParamValue<V> =
    | ThreadInfo(info: Hash<InfoValue<V>>)
    | Object(value: V)

  /** `key` is one of the ignored fiber variables. */
  function IsIgnoredFiberVariable(key: Symbol): (r: bool)
    ensures r <==> key == "__recursive_key__" || key == "__rspec"
  {
    key in IGNORED_FIBER_VARIABLES
  }

  /** A variable survives sanitising when it is not on the ignore-list and its
      value is not an `IO`. */
  predicate Kept<V>(vars: Hash<V>, isIO: V -> bool, ignored: seq<Symbol>, k: Symbol)
  {
    k in vars.table && k !in ignored && !isIO(vars.table[k])
  }

  /** The hash built by visiting `keys` in order and storing, under each key
      that survives sanitising, its value in `vars`. */
  function Sanitized<V>(keys: seq<Symbol>, vars: Hash<V>, isIO: V -> bool, ignored: seq<Symbol>): (r: Hash<V>)
    ensures r.Valid()
    decreases |keys|
  {
    if |keys| == 0 then
      Empty()
    else
      var k := keys[|keys| - 1];
      var h := Sanitized(keys[..|keys| - 1], vars, isIO, ignored);
      if Kept(vars, isIO, ignored, k) then Store(h, k, vars.table[k]) else h
  }

  /** Sanitising keeps exactly the visited keys that survive, each with its value in `vars`. */
  lemma {:induction false} SanitizedContents<V>(keys: seq<Symbol>, vars: Hash<V>, isIO: V -> bool, ignored: seq<Symbol>)
    ensures var r := Sanitized(keys, vars, isIO, ignored);
      && (forall k :: k in r.table <==> k in keys && Kept(vars, isIO, ignored, k))
      && (forall k :: k in r.table ==> k in vars.table && r.table[k] == vars.table[k])
    decreases |keys|
  {
    if |keys| > 0 {
      var init := keys[..|keys| - 1];
      SanitizedContents(init, vars, isIO, ignored);
      assert keys == init + [keys[|keys| - 1]];
    }
  }

  /** Sanitising keeps the surviving keys in the order it visits them. */
  lemma {:induction false} SanitizedInOrder<V>(keys: seq<Symbol>, vars: Hash<V>, isIO: V -> bool, ignored: seq<Symbol>)
    ensures IsSubsequence(Sanitized(keys, vars, isIO, ignored).keys, keys)
    decreases |keys|
  {
    if |keys| > 0 {
      var k := keys[|keys| - 1];
      var init := keys[..|keys| - 1];
      var h := Sanitized(init, vars, isIO, ignored);
      var r := Sanitized(keys, vars, isIO, ignored);
      SanitizedInOrder(init, vars, isIO, ignored);
      if Kept(vars, isIO, ignored, k) && k !in h.table {
        assert r.keys == h.keys + [k];
        assert r.keys[..|r.keys| - 1] == h.keys;
      } else {
        assert r.keys == h.keys;
      }
    }
  }

  /** What `thread_variables(th)` returns. */
  function SanitizedThreadVariables<V>(th: ThreadState<V>, isIO: V -> bool): (r: Hash<V>)
    requires th.Valid()
    ensures r.Valid()
    ensures forall k :: k in r.table <==> k in th.threadVariables.table && !isIO(th.threadVariables.table[k])
    ensures forall k :: k in r.table ==> r.table[k] == th.threadVariables.table[k]
    ensures IsSubsequence(r.keys, th.threadVariables.keys)
  {
    ValidMembers(th.threadVariables);
    SanitizedContents(th.threadVariables.keys, th.threadVariables, isIO, []);
    SanitizedInOrder(th.threadVariables.keys, th.threadVariables, isIO, []);
    Sanitized(th.threadVariables.keys, th.threadVariables, isIO, [])
  }

  /** What `fiber_variables(th)` returns. */
  function SanitizedFiberVariables<V>(th: ThreadState<V>, isIO: V -> bool): (r: Hash<V>)
    requires th.Valid()
    ensures r.Valid()
    ensures forall k :: k in r.table <==>
      k in th.fiberVariables.table && !IsIgnoredFiberVariable(k) && !isIO(th.fiberVariables.table[k])
    ensures forall k :: IsIgnoredFiberVariable(k) ==> k !in r.table
    ensures forall k :: k in r.table ==> r.table[k] == th.fiberVariables.table[k]
    ensures IsSubsequence(r.keys, th.fiberVariables.keys)
  {
    ValidMembers(th.fiberVariables);
    SanitizedContents(th.fiberVariables.keys, th.fiberVariables, isIO, IGNORED_FIBER_VARIABLES);
    SanitizedInOrder(th.fiberVariables.keys, th.fiberVariables, isIO, IGNORED_FIBER_VARIABLES);
    Sanitized(th.fiberVariables.keys, th.fiberVariables, isIO, IGNORED_FIBER_VARIABLES)
  }

  /** `thread_variables(th)`: copy every thread variable whose value is not an `IO`. */
  method ThreadVariables<V>(th: ThreadState<V>, isIO: V -> bool) returns (h: Hash<V>)
    requires th.Valid()
    ensures h == SanitizedThreadVariables(th, isIO)
  {
    var vars := th.threadVariables;
    var keys := vars.keys;
    ValidMembers(vars);
    h := Empty();
    var i := 0;
    while i < |keys|
      invariant 0 <= i <= |keys|
      invariant h == Sanitized(keys[..i], vars, isIO, [])
    {
      var key := keys[i];
      assert keys[..i + 1][..i] == keys[..i];
      i := i + 1;
      var value := vars.table[key];
      if isIO(value) {
        continue;
      }
      h := Store(h, key, value);
    }
    assert keys[..i] == keys;
  }

  /** `fiber_variables(th)`: copy every fiber variable that is not on the
      ignore-list and whose value is not an `IO`. */
  method FiberVariables<V>(th: ThreadState<V>, isIO: V -> bool) returns (h: Hash<V>)
    requires th.Valid()
    ensures h == SanitizedFiberVariables(th, isIO)
  {
    var vars := th.fiberVariables;
    var keys := vars.keys;
    ValidMembers(vars);
    h := Empty();
    var i := 0;
    while i < |keys|
      invariant 0 <= i <= |keys|
      invariant h == Sanitized(keys[..i], vars, isIO, IGNORED_FIBER_VARIABLES)
    {
      var key := keys[i];
      assert keys[..i + 1][..i] == keys[..i];
      i := i + 1;
      if IsIgnoredFiberVariable(key) {
        continue;
      }
      var value := vars.table[key];
      if isIO(value) {
        continue;
      }
      h := Store(h, key, value);
    }
    assert keys[..i] == keys;
  }

  /** The `inspect` string of every thread in the group, in the group's order. */
  function GroupInspects(group: seq<ThreadRef>): (r: seq<string>)
    ensures |r| == |group|
    ensures forall i :: 0 <= i < |group| ==> r[i] == group[i].inspect
  {
    if |group| == 0 then [] else GroupInspects(group[..|group| - 1]) + [group[|group| - 1].inspect]
  }

  /** The thread exposes a name: it responds to `name` and the name is not nil. */
  predicate HasName<V>(th: ThreadState<V>)
  {
    th.respondsToName && th.name.Some?
  }

  /** `k` is one of the keys `add_thread_info` inserts. */
  predicate IsMetadataKey(k: Symbol, jruby: bool)
  {
    k == SELF || k == GROUP || k == PRIORITY || (!jruby && k == SAFE_LEVEL)
  }

  /** The keys `add_thread_info` inserts, in order. */
  function MetadataKeys(jruby: bool): seq<Symbol>
  {
    [SELF, GROUP, PRIORITY] + (if jruby then [] else [SAFE_LEVEL])
  }

  /** `thread_info` after the `thread_variables` insertion of `call`. */
  function WithThreadVariables<V>(th: ThreadState<V>, isIO: V -> bool): (r: Hash<InfoValue<V>>)
    requires th.Valid()
    ensures r.Valid()
  {
    var threadVars := SanitizedThreadVariables(th, isIO);
    if Any(threadVars) then Store(Empty(), THREAD_VARIABLES, Variables(threadVars)) else Empty()
  }

  /** `thread_info` after the `fiber_variables` insertion of `call`. */
  function WithFiberVariables<V>(th: ThreadState<V>, isIO: V -> bool): (r: Hash<InfoValue<V>>)
    requires th.Valid()
    ensures r.Valid()
  {
    var fiberVars := SanitizedFiberVariables(th, isIO);
    var h := WithThreadVariables(th, isIO);
    if Any(fiberVars) then Store(h, FIBER_VARIABLES, Variables(fiberVars)) else h
  }

  /** `thread_info` after the conditional insertions `call` makes before `add_thread_info`. */
  function VariablesAndName<V>(th: ThreadState<V>, isIO: V -> bool): (r: Hash<InfoValue<V>>)
    requires th.Valid()
    ensures r.Valid()
  {
    var h := WithFiberVariables(th, isIO);
    if HasName(th) then Store(h, NAME, Text(th.name.value)) else h
  }

  /** `thread_info` after the three unconditional insertions of `add_thread_info`. */
  function WithSelfGroupPriority<V>(th: ThreadState<V>, info: Hash<InfoValue<V>>): (r: Hash<InfoValue<V>>)
    requires info.Valid()
    ensures r.Valid()
  {
    Store(Store(Store(info, SELF, Text(th.inspect)), GROUP, Texts(GroupInspects(th.group))), PRIORITY, Integer(th.priority))
  }

  /** `thread_info` after `add_thread_info(th, thread_info)`. */
  function WithMetadata<V>(th: ThreadState<V>, info: Hash<InfoValue<V>>, jruby: bool): (r: Hash<InfoValue<V>>)
    requires info.Valid()
    ensures r.Valid()
  {
    var h := WithSelfGroupPriority(th, info);
    if jruby then h else Store(h, SAFE_LEVEL, Integer(th.safeLevel))
  }

  /** The `thread_info` hash that `call` stores for thread `th`. */
  function ThreadInfoOf<V>(th: ThreadState<V>, jruby: bool, isIO: V -> bool): (r: Hash<InfoValue<V>>)
    requires th.Valid()
    ensures r.Valid()
  {
    WithMetadata(th, VariablesAndName(th, isIO), jruby)
  }

  /** The `thread_variables` insertion: the key is present exactly when some
      thread variable survives, and then holds them. */
  lemma WithThreadVariablesContents<V>(th: ThreadState<V>, isIO: V -> bool)
    requires th.Valid()
    ensures var r := WithThreadVariables(th, isIO);
      && (forall k :: k in r.table <==> k == THREAD_VARIABLES && Any(SanitizedThreadVariables(th, isIO)))
      && (THREAD_VARIABLES in r.table ==> r.table[THREAD_VARIABLES] == Variables(SanitizedThreadVariables(th, isIO)))
  {
    var threadVars := SanitizedThreadVariables(th, isIO);
    if Any(threadVars) {
      StoreFrame(Empty(), THREAD_VARIABLES, Variables(threadVars));
    }
  }

  /** The `fiber_variables` insertion adds its key exactly when some fiber
      variable survives, and keeps the `thread_variables` entry. */
  lemma WithFiberVariablesContents<V>(th: ThreadState<V>, isIO: V -> bool)
    requires th.Valid()
    ensures var r := WithFiberVariables(th, isIO);
      && (forall k :: k in r.table <==>
            (k == THREAD_VARIABLES && Any(SanitizedThreadVariables(th, isIO)))
            || (k == FIBER_VARIABLES && Any(SanitizedFiberVariables(th, isIO))))
      && (THREAD_VARIABLES in r.table ==> r.table[THREAD_VARIABLES] == Variables(SanitizedThreadVariables(th, isIO)))
      && (FIBER_VARIABLES in r.table ==> r.table[FIBER_VARIABLES] == Variables(SanitizedFiberVariables(th, isIO)))
  {
    assert THREAD_VARIABLES != FIBER_VARIABLES;
    var fiberVars := SanitizedFiberVariables(th, isIO);
    var h := WithThreadVariables(th, isIO);
    WithThreadVariablesContents(th, isIO);
    if Any(fiberVars) {
      StoreFrame(h, FIBER_VARIABLES, Variables(fiberVars));
    }
  }

  /** The keys `call` inserts before `add_thread_info`, each only when its
      condition holds, in that order. */
  lemma VariablesAndNameOrder<V>(th: ThreadState<V>, isIO: V -> bool)
    requires th.Valid()
    ensures VariablesAndName(th, isIO).keys ==
      (if Any(SanitizedThreadVariables(th, isIO)) then [THREAD_VARIABLES] else [])
      + (if Any(SanitizedFiberVariables(th, isIO)) then [FIBER_VARIABLES] else [])
      + (if HasName(th) then [NAME] else [])
  {
    WithFiberVariablesContents(th, isIO);
    assert NAME != THREAD_VARIABLES && NAME != FIBER_VARIABLES;
  }

  /** The entries `call` makes before `add_thread_info`: each key present only
      when its condition holds, with the value `call` stores under it. */
  lemma VariablesAndNameContents<V>(th: ThreadState<V>, isIO: V -> bool)
    requires th.Valid()
    ensures var r := VariablesAndName(th, isIO);
      && (THREAD_VARIABLES in r.table <==> Any(SanitizedThreadVariables(th, isIO)))
      && (FIBER_VARIABLES in r.table <==> Any(SanitizedFiberVariables(th, isIO)))
      && (NAME in r.table <==> HasName(th))
      && (THREAD_VARIABLES in r.table ==> r.table[THREAD_VARIABLES] == Variables(SanitizedThreadVariables(th, isIO)))
      && (FIBER_VARIABLES in r.table ==> r.table[FIBER_VARIABLES] == Variables(SanitizedFiberVariables(th, isIO)))
      && (NAME in r.table ==> th.name.Some? && r.table[NAME] == Text(th.name.value))
  {
    assert NAME != THREAD_VARIABLES && NAME != FIBER_VARIABLES;
    var h := WithFiberVariables(th, isIO);
    WithFiberVariablesContents(th, isIO);
    if HasName(th) {
      StoreFrame(h, NAME, Text(th.name.value));
    }
  }

  /** Before `add_thread_info`, none of its metadata keys is present. */
  lemma VariablesAndNameDomain<V>(th: ThreadState<V>, isIO: V -> bool)
    requires th.Valid()
    ensures forall k :: k in VariablesAndName(th, isIO).table ==>
      k == THREAD_VARIABLES || k == FIBER_VARIABLES || k == NAME
  {
    var h := WithFiberVariables(th, isIO);
    WithFiberVariablesContents(th, isIO);
    if HasName(th) {
      StoreFrame(h, NAME, Text(th.name.value));
    }
  }

  /** `add_thread_info` adds the metadata keys and keeps every other entry. */
  lemma WithMetadataFrame<V>(th: ThreadState<V>, info: Hash<InfoValue<V>>, jruby: bool)
    requires info.Valid()
    ensures var r := WithMetadata(th, info, jruby);
      && (forall k :: k in r.table <==> k in info.table || IsMetadataKey(k, jruby))
      && (forall k :: k in info.table && !IsMetadataKey(k, jruby) ==> r.table[k] == info.table[k])
  {
    var withSelf := Store(info, SELF, Text(th.inspect));
    StoreFrame(info, SELF, Text(th.inspect));
    var withGroup := Store(withSelf, GROUP, Texts(GroupInspects(th.group)));
    StoreFrame(withSelf, GROUP, Texts(GroupInspects(th.group)));
    var withPriority := Store(withGroup, PRIORITY, Integer(th.priority));
    StoreFrame(withGroup, PRIORITY, Integer(th.priority));
    if !jruby {
      StoreFrame(withPriority, SAFE_LEVEL, Integer(th.safeLevel));
    }
  }

  /** `add_thread_info` leaves an entry under a key other than its own as it was. */
  lemma WithMetadataKeeps<V>(th: ThreadState<V>, info: Hash<InfoValue<V>>, jruby: bool, k: Symbol)
    requires info.Valid() && !IsMetadataKey(k, jruby)
    ensures var r := WithMetadata(th, info, jruby);
      && (k in r.table <==> k in info.table)
      && (k in info.table ==> r.table[k] == info.table[k])
  {
    WithMetadataFrame(th, info, jruby);
  }

  /** `add_thread_info` maps each metadata key to the thread's metadata. */
  lemma WithMetadataValues<V>(th: ThreadState<V>, info: Hash<InfoValue<V>>, jruby: bool)
    requires info.Valid()
    ensures var r := WithMetadata(th, info, jruby);
      && SELF in r.table && r.table[SELF] == Text(th.inspect)
      && GROUP in r.table && r.table[GROUP] == Texts(GroupInspects(th.group))
      && PRIORITY in r.table && r.table[PRIORITY] == Integer(th.priority)
      && (!jruby ==> SAFE_LEVEL in r.table && r.table[SAFE_LEVEL] == Integer(th.safeLevel))
  {
    assert SELF != GROUP && SELF != PRIORITY && SELF != SAFE_LEVEL;
    assert GROUP != PRIORITY && GROUP != SAFE_LEVEL && PRIORITY != SAFE_LEVEL;
    var withSelf := Store(info, SELF, Text(th.inspect));
    StoreFrame(info, SELF, Text(th.inspect));
    var withGroup := Store(withSelf, GROUP, Texts(GroupInspects(th.group)));
    StoreFrame(withSelf, GROUP, Texts(GroupInspects(th.group)));
    var withPriority := Store(withGroup, PRIORITY, Integer(th.priority));
    StoreFrame(withGroup, PRIORITY, Integer(th.priority));
    if !jruby {
      StoreFrame(withPriority, SAFE_LEVEL, Integer(th.safeLevel));
    }
  }

  /** When `self`, `group` and `priority` are absent, the unconditional
      insertions append them in that order and add no other key. */
  lemma WithSelfGroupPriorityOrder<V>(th: ThreadState<V>, info: Hash<InfoValue<V>>)
    requires info.Valid()
    requires SELF !in info.table && GROUP !in info.table && PRIORITY !in info.table
    ensures WithSelfGroupPriority(th, info).keys == info.keys + [SELF, GROUP, PRIORITY]
    ensures forall k :: k in WithSelfGroupPriority(th, info).table <==>
      k in info.table || k == SELF || k == GROUP || k == PRIORITY
  {
    assert SELF != GROUP && SELF != PRIORITY && GROUP != PRIORITY;
    var withSelf := Store(info, SELF, Text(th.inspect));
    StoreFrame(info, SELF, Text(th.inspect));
    var withGroup := Store(withSelf, GROUP, Texts(GroupInspects(th.group)));
    StoreFrame(withSelf, GROUP, Texts(GroupInspects(th.group)));
    StoreFrame(withGroup, PRIORITY, Integer(th.priority));
    assert info.keys + [SELF] + [GROUP] + [PRIORITY] == info.keys + [SELF, GROUP, PRIORITY];
  }

  /** When none of the metadata keys is present yet, `add_thread_info`
      appends them in the order it inserts them. */
  lemma WithMetadataOrder<V>(th: ThreadState<V>, info: Hash<InfoValue<V>>, jruby: bool)
    requires info.Valid()
    requires forall k :: IsMetadataKey(k, jruby) ==> k !in info.table
    ensures WithMetadata(th, info, jruby).keys == info.keys + MetadataKeys(jruby)
  {
    assert IsMetadataKey(SELF, jruby) && IsMetadataKey(GROUP, jruby) && IsMetadataKey(PRIORITY, jruby);
    WithSelfGroupPriorityOrder(th, info);
    if !jruby {
      assert IsMetadataKey(SAFE_LEVEL, jruby);
      assert SAFE_LEVEL != SELF && SAFE_LEVEL != GROUP && SAFE_LEVEL != PRIORITY;
    }
  }

  /** The keys of `thread_info`, in the order `call` inserts them. */
  function InfoKeys<V>(th: ThreadState<V>, jruby: bool, isIO: V -> bool): seq<Symbol>
    requires th.Valid()
  {
    (if Any(SanitizedThreadVariables(th, isIO)) then [THREAD_VARIABLES] else [])
      + (if Any(SanitizedFiberVariables(th, isIO)) then [FIBER_VARIABLES] else [])
      + (if HasName(th) then [NAME] else [])
      + MetadataKeys(jruby)
  }

  /** `thread_info` holds its keys in the order `call` inserts them. */
  lemma ThreadInfoKeyOrder<V>(th: ThreadState<V>, jruby: bool, isIO: V -> bool)
    requires th.Valid()
    ensures ThreadInfoOf(th, jruby, isIO).keys == InfoKeys(th, jruby, isIO)
  {
    var h := VariablesAndName(th, isIO);
    VariablesAndNameOrder(th, isIO);
    VariablesAndNameDomain(th, isIO);
    forall k | IsMetadataKey(k, jruby)
      ensures k !in h.table
    {
      assert k != THREAD_VARIABLES && k != FIBER_VARIABLES && k != NAME;
    }
    WithMetadataOrder(th, h, jruby);
  }

  /** The keys `call` may put in `thread_info`. */
  predicate IsInfoKey(k: Symbol)
  {
    k == THREAD_VARIABLES || k == FIBER_VARIABLES || k == NAME || k == SELF || k == GROUP
      || k == PRIORITY || k == SAFE_LEVEL
  }

  /** `thread_info` holds no key besides those `call` inserts. */
  lemma ThreadInfoOnlyKeys<V>(th: ThreadState<V>, jruby: bool, isIO: V -> bool)
    requires th.Valid()
    ensures forall k :: k in ThreadInfoOf(th, jruby, isIO).table ==> IsInfoKey(k)
  {
    var h := VariablesAndName(th, isIO);
    VariablesAndNameDomain(th, isIO);
    WithMetadataFrame(th, h, jruby);
  }

  /** Some thread variable survives sanitising exactly when one holds a
      non-`IO` value. */
  lemma AnyThreadVariables<V>(th: ThreadState<V>, isIO: V -> bool)
    requires th.Valid()
    ensures Any(SanitizedThreadVariables(th, isIO)) <==>
      exists k :: k in th.threadVariables.table && !isIO(th.threadVariables.table[k])
  {
    var vars := th.threadVariables;
    if exists k :: k in vars.table && !isIO(vars.table[k]) {
      var k :| k in vars.table && !isIO(vars.table[k]);
      assert k in SanitizedThreadVariables(th, isIO).table;
    }
  }

  /** Some fiber variable survives sanitising exactly when one off the
      ignore-list holds a non-`IO` value. */
  lemma AnyFiberVariables<V>(th: ThreadState<V>, isIO: V -> bool)
    requires th.Valid()
    ensures Any(SanitizedFiberVariables(th, isIO)) <==>
      exists k :: k in th.fiberVariables.table && !IsIgnoredFiberVariable(k) && !isIO(th.fiberVariables.table[k])
  {
    var vars := th.fiberVariables;
    if exists k :: k in vars.table && !IsIgnoredFiberVariable(k) && !isIO(vars.table[k]) {
      var k :| k in vars.table && !IsIgnoredFiberVariable(k) && !isIO(vars.table[k]);
      assert k in SanitizedFiberVariables(th, isIO).table;
    }
  }

  /** `thread_variables` is present exactly when some thread variable holds a
      non-`IO` value, and then holds the sanitised thread variables. */
  lemma ThreadVariablesEntry<V>(th: ThreadState<V>, jruby: bool, isIO: V -> bool)
    requires th.Valid()
    ensures var r := ThreadInfoOf(th, jruby, isIO);
      && (THREAD_VARIABLES in r.table <==>
            exists k :: k in th.threadVariables.table && !isIO(th.threadVariables.table[k]))
      && (THREAD_VARIABLES in r.table ==> r.table[THREAD_VARIABLES] == Variables(SanitizedThreadVariables(th, isIO)))
  {
    var h := VariablesAndName(th, isIO);
    VariablesAndNameContents(th, isIO);
    WithMetadataKeeps(th, h, jruby, THREAD_VARIABLES);
    AnyThreadVariables(th, isIO);
  }

  /** `fiber_variables` is present exactly when some fiber variable off the
      ignore-list holds a non-`IO` value, and then holds the sanitised fiber
      variables. */
  lemma FiberVariablesEntry<V>(th: ThreadState<V>, jruby: bool, isIO: V -> bool)
    requires th.Valid()
    ensures var r := ThreadInfoOf(th, jruby, isIO);
      && (FIBER_VARIABLES in r.table <==>
            exists k :: k in th.fiberVariables.table && !IsIgnoredFiberVariable(k) && !isIO(th.fiberVariables.table[k]))
      && (FIBER_VARIABLES in r.table ==> r.table[FIBER_VARIABLES] == Variables(SanitizedFiberVariables(th, isIO)))
  {
    var h := VariablesAndName(th, isIO);
    VariablesAndNameContents(th, isIO);
    WithMetadataKeeps(th, h, jruby, FIBER_VARIABLES);
    AnyFiberVariables(th, isIO);
  }

  /** `name` is present exactly when the thread responds to `name` with a
      non-nil name (an empty name included), and then holds that name. */
  lemma NameEntry<V>(th: ThreadState<V>, jruby: bool, isIO: V -> bool)
    requires th.Valid()
    ensures var r := ThreadInfoOf(th, jruby, isIO);
      && (NAME in r.table <==> th.respondsToName && th.name.Some?)
      && (NAME in r.table ==> r.table[NAME] == Text(th.name.value))
  {
    var h := VariablesAndName(th, isIO);
    VariablesAndNameContents(th, isIO);
    WithMetadataKeeps(th, h, jruby, NAME);
  }

  /** `self`, `group` and `priority` are always present: the thread's own
      `inspect`, one `inspect` per group member in the group's order, and the
      thread's priority. */
  lemma MetadataEntries<V>(th: ThreadState<V>, jruby: bool, isIO: V -> bool)
    requires th.Valid()
    ensures var r := ThreadInfoOf(th, jruby, isIO);
      && SELF in r.table && r.table[SELF] == Text(th.inspect)
      && GROUP in r.table && r.table[GROUP].Texts?
      && |r.table[GROUP].items| == |th.group|
      && (forall i :: 0 <= i < |th.group| ==> r.table[GROUP].items[i] == th.group[i].inspect)
      && PRIORITY in r.table && r.table[PRIORITY] == Integer(th.priority)
  {
    WithMetadataValues(th, VariablesAndName(th, isIO), jruby);
  }

  /** `safe_level` is present exactly when not running on JRuby, and then holds
      the thread's safe level. */
  lemma SafeLevelEntry<V>(th: ThreadState<V>, jruby: bool, isIO: V -> bool)
    requires th.Valid()
    ensures var r := ThreadInfoOf(th, jruby, isIO);
      && (SAFE_LEVEL in r.table <==> !jruby)
      && (SAFE_LEVEL in r.table ==> r.table[SAFE_LEVEL] == Integer(th.safeLevel))
  {
    var h := VariablesAndName(th, isIO);
    VariablesAndNameDomain(th, isIO);
    assert SAFE_LEVEL !in h.table;
    WithMetadataFrame(th, h, jruby);
    WithMetadataValues(th, h, jruby);
  }

  /** `add_thread_info(th, thread_info)`: insert `self`, `group` and `priority`,
      and `safe_level` unless running on JRuby. */
  method AddThreadInfo<V>(th: ThreadState<V>, info: Hash<InfoValue<V>>, jruby: bool)
    returns (r: Hash<InfoValue<V>>)
    requires info.Valid()
    ensures r == WithMetadata(th, info, jruby)
  {
    r := Store(info, SELF, Text(th.inspect));
    r := Store(r, GROUP, Texts(GroupInspects(th.group)));
    r := Store(r, PRIORITY, Integer(th.priority));
    if !jruby {
      r := Store(r, SAFE_LEVEL, Integer(th.safeLevel));
    }
  }

  /** The first part of `call`: build `thread_info` by successive conditional insertions. */
  method BuildThreadInfo<V>(th: ThreadState<V>, jruby: bool, isIO: V -> bool)
    returns (info: Hash<InfoValue<V>>)
    requires th.Valid()
    ensures info == ThreadInfoOf(th, jruby, isIO)
  {
    info := Empty();
    var vars := ThreadVariables(th, isIO);
    if Any(vars) {
      info := Store(info, THREAD_VARIABLES, Variables(vars));
    }
    vars := FiberVariables(th, isIO);
    if Any(vars) {
      info := Store(info, FIBER_VARIABLES, Variables(vars));
    }
    if th.respondsToName && th.name.Some? {
      info := Store(info, NAME, Text(th.name.value));
    }
    info := AddThreadInfo(th, info, jruby);
  }

  /** The notice being filtered; only its `params` hash is modelled. */
  class Notice<V> {
    var params: Hash<ParamValue<V>>

    ghost predicate Valid()
      reads this
    {
      params.Valid()
    }

    constructor (params: Hash<ParamValue<V>>)
      requires params.Valid()
      ensures Valid() && this.params == params
    {
      this.params := params;
    }
  }

  class ThreadFilter {
    /** The filter's position in the chain; only ever read. */
    const weight: int

    constructor ()
      ensures weight == 110
    {
      weight := 110;
    }

    /** `call(notice)`: build `thread_info` for thread `th` and store it at
        `notice[:params][:thread]`, leaving every other parameter alone. */
    method Call<V>(notice: Notice<V>, th: ThreadState<V>, jruby: bool, isIO: V -> bool)
      requires notice.Valid() && th.Valid()
      modifies notice
      ensures notice.Valid()
      ensures notice.params == Store(old(notice.params), THREAD, ThreadInfo(ThreadInfoOf(th, jruby, isIO)))
      ensures THREAD in notice.params.table
      ensures notice.params.table[THREAD] == ThreadInfo(ThreadInfoOf(th, jruby, isIO))
      ensures forall k :: k != THREAD ==> (k in notice.params.table <==> k in old(notice.params.table))
      ensures forall k :: k != THREAD && k in old(notice.params.table) ==> notice.params.table[k] == old(notice.params.table[k])
      ensures notice.params.keys == if THREAD in old(notice.params.table) then old(notice.params.keys) else old(notice.params.keys) + [THREAD]
    {
      var info := BuildThreadInfo(th, jruby, isIO);
      StoreFrame(notice.params, THREAD, ThreadInfo(info));
      notice.params := Store(notice.params, THREAD, ThreadInfo(info));
    }
  }

  /** Filtering a notice a second time for the same thread leaves its
      parameters exactly as the first call left them. */
  method CallTwice<V>(filter: ThreadFilter, notice: Notice<V>, th: ThreadState<V>, jruby: bool, isIO: V -> bool)
    requires notice.Valid() && th.Valid()
    modifies notice
    ensures notice.Valid()
    ensures notice.params == Store(old(notice.params), THREAD, ThreadInfo(ThreadInfoOf(th, jruby, isIO)))
  {
    filter.Call(notice, th, jruby, isIO);
    var once := notice.params;
    filter.Call(notice, th, jruby, isIO);
    StoreIdempotent(old(notice.params), THREAD, ThreadInfo(ThreadInfoOf(th, jruby, isIO)));
    assert notice.params == once;
  }
}
