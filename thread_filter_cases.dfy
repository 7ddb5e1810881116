/** The filter's specified result for two concrete threads. */
module FilterCases {
  import opened RubyHash
  import opened Filters

  /** Variable values for the cases: a string, an integer or an open stream. */
  datatype Value = Str(s: string) | Num(n: int) | Stream

  function IsStream(v: Value): bool
  {
    v.Stream?
  }

  function MainThread(vars: Hash<Value>, fiberVars: Hash<Value>): ThreadState<Value>
  {
    ThreadState(vars, fiberVars, true, None, "#<Thread:main run>", [], 0, 0)
  }

  function WorkerVars(): Hash<Value>
  {
    Store(Empty(), "role", Str("worker"))
  }

  function WorkerFiberVars(): Hash<Value>
  {
    Store(Store(Empty(), "__recursive_key__", Num(1)), "request_id", Str("abc"))
  }

  function Worker(): ThreadState<Value>
  {
    MainThread(WorkerVars(), WorkerFiberVars())
  }

  /** `thread_variables` keeps the string-valued `role`. */
  lemma WorkerThreadVariables()
    ensures SanitizedThreadVariables(Worker(), IsStream).table == map["role" := Str("worker")]
  {
    var st := SanitizedThreadVariables(Worker(), IsStream);
    assert st.table.Keys == {"role"};
  }

  /** `fiber_variables` drops `__recursive_key__` and keeps `request_id`. */
  lemma WorkerFiberVariables()
    ensures SanitizedFiberVariables(Worker(), IsStream).table == map["request_id" := Str("abc")]
  {
    var fv0: Hash<Value> := Store(Empty(), "__recursive_key__", Num(1));
    StoreFrame(fv0, "request_id", Str("abc"));
    assert !IsIgnoredFiberVariable("request_id");
    var sf := SanitizedFiberVariables(Worker(), IsStream);
    assert sf.table.Keys == {"request_id"};
  }

  /** A thread variable `role` is reported; the fiber variable
      `__recursive_key__` is dropped while `request_id` is reported. */
  lemma WorkerCase()
    ensures var r := ThreadInfoOf(Worker(), false, IsStream);
      && THREAD_VARIABLES in r.table
      && r.table[THREAD_VARIABLES] == Variables(SanitizedThreadVariables(Worker(), IsStream))
      && r.table[THREAD_VARIABLES].vars.table == map["role" := Str("worker")]
      && FIBER_VARIABLES in r.table
      && r.table[FIBER_VARIABLES] == Variables(SanitizedFiberVariables(Worker(), IsStream))
      && r.table[FIBER_VARIABLES].vars.table == map["request_id" := Str("abc")]
      && NAME !in r.table
      && SELF in r.table && GROUP in r.table && PRIORITY in r.table
  {
    WorkerThreadVariables();
    WorkerFiberVariables();
    ThreadVariablesEntry(Worker(), false, IsStream);
    FiberVariablesEntry(Worker(), false, IsStream);
    NameEntry(Worker(), false, IsStream);
    MetadataEntries(Worker(), false, IsStream);
    assert "role" in SanitizedThreadVariables(Worker(), IsStream).table;
    assert "request_id" in SanitizedFiberVariables(Worker(), IsStream).table;
  }

  /** A thread whose only variable holds an open stream reports no
      `thread_variables` entry at all. */
  lemma StreamOnlyCase()
    ensures var tv := Store(Empty(), "socket", Stream);
      var r := ThreadInfoOf(MainThread(tv, Empty()), false, IsStream);
      && THREAD_VARIABLES !in r.table
      && FIBER_VARIABLES !in r.table
      && SELF in r.table && GROUP in r.table && PRIORITY in r.table
  {
    var tv := Store(Empty(), "socket", Stream);
    var th := MainThread(tv, Empty());
    ThreadVariablesEntry(th, false, IsStream);
    FiberVariablesEntry(th, false, IsStream);
    MetadataEntries(th, false, IsStream);
  }
}
