/** Runs of operations on a stored multi-key channel against the same runs on the plain record list. */
module MultiKeyRuns {
  import opened Basics
  import opened Text
  import opened ModelNames
  import opened MultiKey
  import opened MultiKeyAppend
  import opened MultiKeyChannel

  datatype Op =
    | Disable(index: int)
    | Enable(index: int)
    | DisableAll
    | EnableAll
    | Delete(index: int)
    | DeleteDisabled
    | Append(input: string)
    | MarkDisabled(usingKey: string, reason: string, now: int)

  /** The same operation on the plain list.  Deleting when every key is auto-disabled enables them
      all instead: the one case where the stored row does not lose what the list should lose. */
  function Apply(rs: seq<Record>, op: Op): seq<Record> {
    match op
    case Disable(i) => if 0 <= i < |rs| then rs[i := rs[i].(status := MANUALLY_DISABLED)] else rs
    case Enable(i) => if 0 <= i < |rs| then rs[i := Enabled(rs[i])] else rs
    case DisableAll => DisableAllRecords(rs)
    case EnableAll => EnableAllRecords(rs)
    case Delete(i) => if 0 <= i < |rs| && |rs| > 1 then WithoutAt(rs, i) else rs
    case DeleteDisabled => if WithoutAutoDisabled(rs) == [] then EnableAllRecords(rs) else WithoutAutoDisabled(rs)
    case Append(input) => rs + FreshRecords(NewKeys(KeysOf(rs), input))
    case MarkDisabled(k, reason, now) => MarkFirst(rs, k, reason, now)
  }

  /** Auto-disables the first record with the key. */
  function MarkFirst(rs: seq<Record>, k: string, reason: string, now: int): seq<Record> {
    if rs == [] then []
    else if rs[0].key == k then [Record(k, AUTO_DISABLED, Some(now), Some(reason))] + rs[1..]
    else [rs[0]] + MarkFirst(rs[1..], k, reason, now)
  }

  // ---------------------------------------------------------------- what the operations mean

  /** Enabling and disabling keep the number and the order of the keys.  Disabling sets status 2 on the record
      it names, or on every record with status 1, and touches nothing else; enabling sets status 1 and
      forgets time and reason. */
  lemma SwitchesMean(rs: seq<Record>, i: int, k: int)
    requires 0 <= k < |rs|
    ensures |Apply(rs, Disable(i))| == |Apply(rs, Enable(i))| == |rs|
    ensures |Apply(rs, DisableAll)| == |Apply(rs, EnableAll)| == |rs|
    ensures Apply(rs, Disable(i))[k] == if k == i then rs[k].(status := 2) else rs[k]
    ensures Apply(rs, Enable(i))[k] == if k == i then Record(rs[k].key, 1, None, None) else rs[k]
    ensures Apply(rs, DisableAll)[k] == if rs[k].status == 1 then rs[k].(status := 2) else rs[k]
    ensures Apply(rs, EnableAll)[k] == Record(rs[k].key, 1, None, None)
  {
  }

  /** Marking gives exactly the first record with the key status 3, with time and reason. */
  lemma {:induction false} MarkMeans(rs: seq<Record>, key: string, reason: string, now: int, k: int)
    requires 0 <= k < |rs|
    ensures |MarkFirst(rs, key, reason, now)| == |rs|
    ensures MarkFirst(rs, key, reason, now)[k] ==
      if rs[k].key == key && forall j | 0 <= j < k :: rs[j].key != key then Record(key, 3, Some(now), Some(reason))
      else rs[k]
  {
    if rs[0].key != key && |rs| > 1 {
      MarkMeans(rs[1..], key, reason, now, if k > 0 then k - 1 else 0);
      if k > 0 {
        assert rs[1..][k - 1] == rs[k];
        forall j | 1 <= j < k ensures rs[j] == rs[1..][j - 1] {}
        forall j | 0 <= j < k - 1 ensures rs[1..][j] == rs[j + 1] {}
      }
    }
  }

  // ---------------------------------------------------------------- one operation on the stored row

  predicate SomeAutoDisabled(rs: seq<Record>) {
    exists i :: 0 <= i < |rs| && rs[i].status == AUTO_DISABLED
  }

  /** The key column after an operation that is stored. */
  function NextKey(key: string, rs: seq<Record>, op: Op, json: JsonKeys): string {
    match op
    case Delete(i) =>
      if 0 <= i < |rs| && |rs| > 1 then StoredKey(key, Join(WithoutAt(KeysOf(rs), i), '\n')) else key
    case DeleteDisabled =>
      if SomeAutoDisabled(rs) then StoredKey(key, Join(KeysOf(WithoutAutoDisabled(rs)), '\n')) else key
    case Append(input) => StoredKey(key, AppendedText(key, input, json))
    case _ => key
  }

  /** What an operation that rewrites the column needs of it: the keys that remain are writable, and
      appended keys are stored. */
  predicate StepOk(key: string, rs: seq<Record>, op: Op, json: JsonKeys) {
    match op
    case Delete(i) => 0 <= i < |rs| && |rs| > 1 ==> Writable(key, WithoutAt(KeysOf(rs), i), json)
    case DeleteDisabled =>
      SomeAutoDisabled(rs) && WithoutAutoDisabled(rs) != [] ==> Writable(key, KeysOf(WithoutAutoDisabled(rs)), json)
    case Append(input) => AppendStores(key, input, json)
    case _ => true
  }

  /** An operation and what became of storing it; marking a key needs no store. */
  datatype Call = Call(op: Op, store: Store)

  predicate Takes(call: Call) {
    call.op.MarkDisabled? || call.store != NotSaved
  }

  lemma {:induction false} MarkFirstKeys(rs: seq<Record>, k: string, reason: string, now: int)
    ensures KeysOf(MarkFirst(rs, k, reason, now)) == KeysOf(rs)
  {
    if rs != [] && rs[0].key != k {
      MarkFirstKeys(rs[1..], k, reason, now);
      var tail := MarkFirst(rs[1..], k, reason, now);
      assert |KeysOf(tail)| == |KeysOf(rs[1..])|;
      forall i | 0 <= i < |rs| ensures KeysOf(MarkFirst(rs, k, reason, now))[i] == KeysOf(rs)[i] {
        if i > 0 { assert KeysOf(tail)[i - 1] == KeysOf(rs[1..])[i - 1]; }
      }
    }
  }

  lemma {:induction false} MarkFirstAt(rs: seq<Record>, k: string, reason: string, now: int, i: int)
    requires 0 <= i < |rs| && rs[i].key == k && forall j | 0 <= j < i :: rs[j].key != k
    ensures MarkFirst(rs, k, reason, now) == rs[i := Record(k, AUTO_DISABLED, Some(now), Some(reason))]
  {
    if i > 0 { MarkFirstAt(rs[1..], k, reason, now, i - 1); }
  }

  lemma {:induction false} MarkFirstNone(rs: seq<Record>, k: string, reason: string, now: int)
    requires forall j | 0 <= j < |rs| :: rs[j].key != k
    ensures MarkFirst(rs, k, reason, now) == rs
  {
    if rs != [] { MarkFirstNone(rs[1..], k, reason, now); }
  }

  lemma {:induction false} KeptAll(rs: seq<Record>)
    ensures (forall i | 0 <= i < |rs| :: rs[i].status != AUTO_DISABLED) ==> WithoutAutoDisabled(rs) == rs
  {
    if rs != [] { KeptAll(rs[..|rs| - 1]); }
  }

  /** Marking the first occurrence of the key among the keys marks the first record. */
  lemma MarkByKeys(rs: seq<Record>, keys: seq<string>, k: string, reason: string, now: int, index: Option<int>)
    requires KeysOf(rs) == keys && (index.None? <==> k !in keys)
    requires index.Some? ==> 0 <= index.value < |keys| && keys[index.value] == k && k !in keys[..index.value]
    ensures MarkFirst(rs, k, reason, now) ==
      if index.None? then rs else rs[index.value := Record(k, AUTO_DISABLED, Some(now), Some(reason))]
  {
    assert forall i | 0 <= i < |rs| :: rs[i].key == keys[i];
    if index.Some? {
      assert forall j | 0 <= j < index.value :: keys[j] in keys[..index.value];
      MarkFirstAt(rs, k, reason, now, index.value);
    } else {
      assert forall j | 0 <= j < |keys| :: keys[j] in keys;
      MarkFirstNone(rs, k, reason, now);
    }
  }

  lemma DisableAllNothing(rs: seq<Record>)
    requires forall i | 0 <= i < |rs| :: rs[i].status != ENABLED
    ensures DisableAllRecords(rs) == rs
  {
  }

  method PerformSimple(c: Channel, op: Op, store: Store)
    requires c.Valid() && (op.Disable? || op.Enable? || op.DisableAll? || op.EnableAll?)
    modifies c
    ensures c.Valid() && c.key == old(c.key)
    ensures c.List() == if store != NotSaved then Apply(old(c.List()), op) else old(c.List())
  {
    ghost var rs := c.List();
    var r;
    match op
    case Disable(i) => r := c.DisableKey(Some(i), store);
    case Enable(i) => r := c.EnableKey(Some(i), store);
    case DisableAll =>
      r := c.DisableAllKeys(store);
      if r == NothingToDo { DisableAllNothing(rs); }
    case EnableAll => r := c.EnableAllKeys(store);
  }

  /** What a call promises about the row: without a write nothing changes, and otherwise the row refines
      the operation on the list exactly when the step condition holds. */
  twostate predicate Refines(c: Channel, call: Call)
    reads c
  {
    if !Takes(call) then c.Valid() && c.key == old(c.key) && c.List() == old(c.List())
    else
      && c.key == NextKey(old(c.key), old(c.List()), call.op, c.json)
      && (StepOk(old(c.key), old(c.List()), call.op, c.json) <==>
            c.Valid() && c.List() == Apply(old(c.List()), call.op))
  }

  method PerformDelete(c: Channel, index: int, store: Store)
    requires c.Valid()
    modifies c
    ensures Refines(c, Call(Delete(index), store))
  {
    KeysOfRecords(c.Keys(), c.CurrentInfo());
    var r := c.DeleteKey(Some(index), store);
  }

  method PerformDeleteDisabled(c: Channel, store: Store)
    requires c.Valid()
    modifies c
    ensures Refines(c, Call(DeleteDisabled, store))
  {
    ghost var rs := c.List();
    NoneToDelete(rs);
    var r := c.DeleteDisabledKeys(store);
    assert r == NothingToDo <==> !SomeAutoDisabled(rs);
  }

  lemma NoneToDelete(rs: seq<Record>)
    ensures !SomeAutoDisabled(rs) ==> Apply(rs, DeleteDisabled) == rs
  {
    KeptAll(rs);
  }

  method PerformAppend(c: Channel, input: string, store: Store)
    requires c.Valid()
    modifies c
    ensures Refines(c, Call(Append(input), store))
  {
    ghost var rs, keys := c.List(), c.Keys();
    KeysOfRecords(keys, c.CurrentInfo());
    ApplyAppend(rs, keys, input);
    var ok := c.AppendKeys(input, store);
  }

  lemma ApplyAppend(rs: seq<Record>, keys: seq<string>, input: string)
    requires KeysOf(rs) == keys
    ensures Apply(rs, Append(input)) == rs + FreshRecords(NewKeys(keys, input))
  {
  }

  method PerformMark(c: Channel, usingKey: string, reason: string, now: int, store: Store)
    requires c.Valid()
    modifies c
    ensures Refines(c, Call(MarkDisabled(usingKey, reason, now), store))
  {
    ghost var rs, keys := c.List(), c.Keys();
    KeysOfRecords(keys, c.CurrentInfo());
    var index := c.SetKeyStatus(usingKey, AUTO_DISABLED, reason, now);
    MarkByKeys(rs, keys, usingKey, reason, now, index);
  }

  /** Every operation on every valid row. */
  method Perform(c: Channel, call: Call)
    requires c.Valid()
    modifies c
    ensures Refines(c, call)
  {
    match call.op
    case Delete(i) => PerformDelete(c, i, call.store);
    case DeleteDisabled => PerformDeleteDisabled(c, call.store);
    case Append(input) => PerformAppend(c, input, call.store);
    case MarkDisabled(k, reason, now) => PerformMark(c, k, reason, now, call.store);
    case _ => PerformSimple(c, call.op, call.store);
  }

  // ---------------------------------------------------------------- runs

  function ApplyAll(rs: seq<Record>, calls: seq<Call>): seq<Record>
    decreases calls
  {
    if calls == [] then rs
    else ApplyAll(if Takes(calls[0]) then Apply(rs, calls[0].op) else rs, calls[1..])
  }

  /** Every step of the run meets its condition, on the column and the list it finds. */
  predicate StepsOk(key: string, rs: seq<Record>, calls: seq<Call>, json: JsonKeys)
    decreases calls
  {
    calls == [] ||
    if Takes(calls[0]) then
      && StepOk(key, rs, calls[0].op, json)
      && StepsOk(NextKey(key, rs, calls[0].op, json), Apply(rs, calls[0].op), calls[1..], json)
    else StepsOk(key, rs, calls[1..], json)
  }

  /** Refinement: from every valid row, a run whose steps meet their conditions leaves the row valid and
      standing for the result of the same run on the plain list of records. */
  method RunRefinesList(c: Channel, calls: seq<Call>)
    requires c.Valid() && StepsOk(c.key, c.List(), calls, c.json)
    modifies c
    ensures c.Valid() && c.List() == ApplyAll(old(c.List()), calls)
  {
    var i := 0;
    while i < |calls|
      invariant 0 <= i <= |calls| && c.Valid() && StepsOk(c.key, c.List(), calls[i..], c.json)
      invariant ApplyAll(c.List(), calls[i..]) == ApplyAll(old(c.List()), calls)
    {
      assert calls[i..][0] == calls[i] && calls[i..][1..] == calls[i + 1..];
      Perform(c, calls[i]);
      i := i + 1;
    }
  }

  // ---------------------------------------------------------------- keys that always refine

  /** No appended key starts like a JSON array. */
  predicate PlainOp(op: Op) {
    op.Append? ==> NoneBracketed(Normalize(Split(op.input, '\n')))
  }

  predicate NoneBracketed(names: seq<string>) {
    forall i | 0 <= i < |names| :: !("[" <= names[i])
  }

  predicate PlainRecords(rs: seq<Record>) {
    forall i | 0 <= i < |rs| :: Plain(rs[i].key)
  }

  /** At least one key, all of them plain, in a column of lines or a real JSON array. */
  predicate PlainRow(key: string, rs: seq<Record>, json: JsonKeys) {
    && rs != [] && PlainRecords(rs) && ReadsAs(key, KeysOf(rs), json)
    && !OnlyLooksLikeJson(key, json)
  }

  lemma NewKeysPlain(rs: seq<Record>, input: string)
    requires PlainOp(Append(input))
    ensures AllPlain(NewKeys(KeysOf(rs), input))
  {
    var added := NewKeys(KeysOf(rs), input);
    var names := Normalize(Split(input, '\n'));
    NewKeysClean(KeysOf(rs), input);
    forall i | 0 <= i < |added| ensures Plain(added[i]) {
      assert added[i] in added;
      NamePlain(names, added[i]);
    }
  }

  lemma NamePlain(names: seq<string>, name: string)
    requires NoneBracketed(names) && name in names && Clean(name) && '\n' !in name
    ensures Plain(name)
  {
    var j :| 0 <= j < |names| && names[j] == name;
    assert !("[" <= names[j]);
  }

  /** Every operation keeps at least one key and only plain keys. */
  lemma ApplyKeepsPlain(rs: seq<Record>, op: Op)
    requires rs != [] && PlainRecords(rs) && PlainOp(op)
    ensures Apply(rs, op) != [] && PlainRecords(Apply(rs, op))
  {
    match op
    case Disable(_) =>
    case Enable(_) =>
    case DisableAll =>
    case EnableAll =>
    case Delete(_) =>
    case DeleteDisabled =>
      KeptKeys(rs);
      var kept := WithoutAutoDisabled(rs);
      forall i | 0 <= i < |kept| ensures Plain(kept[i].key) {
        assert kept[i] in kept && kept[i] in rs;
      }
    case Append(input) => NewKeysPlain(rs, input);
    case MarkDisabled(k, reason, now) =>
      var marked := MarkFirst(rs, k, reason, now);
      MarkFirstKeys(rs, k, reason, now);
      assert |marked| == |KeysOf(marked)| == |KeysOf(rs)|;
      forall i | 0 <= i < |marked| ensures Plain(marked[i].key) {
        assert KeysOf(marked)[i] == marked[i].key && KeysOf(rs)[i] == rs[i].key;
      }
  }

  /** A column made of plain keys is read as lines, and back as those keys. */
  lemma PlainColumn(rs: seq<Record>)
    requires rs != [] && PlainRecords(rs)
    ensures Storable(KeysOf(rs), '\n') && !("[" <= TrimSpace(Join(KeysOf(rs), '\n'))) && Join(KeysOf(rs), '\n') != ""
  {
    PlainStorable(KeysOf(rs));
    JoinEnds(KeysOf(rs), '\n');
    PlainNotJson(KeysOf(rs));
  }

  /** Plain keys are writable over any column, and the new column is plain. */
  lemma PlainWritable(before: string, text: string, rs: seq<Record>, json: JsonKeys)
    requires rs != [] && PlainRecords(rs) && text == Join(KeysOf(rs), '\n')
    ensures Writable(before, KeysOf(rs), json) && PlainRow(StoredKey(before, text), rs, json)
  {
    PlainColumn(rs);
    WritableIff(before, KeysOf(rs), json);
  }

  lemma AppendedKeys(rs: seq<Record>, input: string)
    ensures KeysOf(Apply(rs, Append(input))) == KeysOf(rs) + NewKeys(KeysOf(rs), input)
  {
  }

  lemma AppendIsRewrite(key: string, keys: seq<string>, input: string, json: JsonKeys)
    requires key != "" && GetKeys(key, json) == keys && !OnlyLooksLikeJson(key, json)
    ensures AppendedText(key, input, json) == Join(keys + NewKeys(keys, input), '\n')
    ensures AppendStores(key, input, json) <==> Writable(key, keys + NewKeys(keys, input), json)
  {
    assert ExistingKeys(key, json) == keys;
  }

  lemma AppendPlain(key: string, rs: seq<Record>, input: string, json: JsonKeys)
    requires PlainRow(key, rs, json) && PlainOp(Append(input))
    ensures AppendStores(key, input, json)
    ensures PlainRow(NextKey(key, rs, Append(input), json), Apply(rs, Append(input)), json)
  {
    var after := Apply(rs, Append(input));
    ApplyKeepsPlain(rs, Append(input));
    PlainAppendIsRewrite(key, rs, input, json);
    PlainWritable(key, AppendedText(key, input, json), after, json);
  }

  lemma PlainAppendIsRewrite(key: string, rs: seq<Record>, input: string, json: JsonKeys)
    requires PlainRow(key, rs, json)
    ensures AppendedText(key, input, json) == Join(KeysOf(Apply(rs, Append(input))), '\n')
    ensures AppendStores(key, input, json) <==> Writable(key, KeysOf(Apply(rs, Append(input))), json)
  {
    ReadsAsIff(key, KeysOf(rs), json);
    AppendedKeys(rs, input);
    AppendIsRewrite(key, KeysOf(rs), input, json);
  }

  lemma KeysWithoutAt(rs: seq<Record>, index: int)
    requires 0 <= index < |rs|
    ensures KeysOf(WithoutAt(rs, index)) == WithoutAt(KeysOf(rs), index)
  {
  }

  lemma DeletePlain(key: string, rs: seq<Record>, index: int, json: JsonKeys)
    requires PlainRow(key, rs, json)
    ensures StepOk(key, rs, Delete(index), json)
    ensures PlainRow(NextKey(key, rs, Delete(index), json), Apply(rs, Delete(index)), json)
  {
    if 0 <= index < |rs| && |rs| > 1 {
      ApplyKeepsPlain(rs, Delete(index));
      KeysWithoutAt(rs, index);
      PlainWritable(key, Join(WithoutAt(KeysOf(rs), index), '\n'), WithoutAt(rs, index), json);
    }
  }

  lemma DeleteDisabledPlain(key: string, rs: seq<Record>, json: JsonKeys)
    requires PlainRow(key, rs, json)
    ensures StepOk(key, rs, DeleteDisabled, json)
    ensures PlainRow(NextKey(key, rs, DeleteDisabled, json), Apply(rs, DeleteDisabled), json)
  {
    KeptAll(rs);
    ApplyKeepsPlain(rs, DeleteDisabled);
    if SomeAutoDisabled(rs) && WithoutAutoDisabled(rs) != [] {
      PlainWritable(key, Join(KeysOf(WithoutAutoDisabled(rs)), '\n'), WithoutAutoDisabled(rs), json);
    } else {
      assert KeysOf(Apply(rs, DeleteDisabled)) == KeysOf(rs);
    }
  }

  lemma SameKeysPlain(key: string, rs: seq<Record>, op: Op, json: JsonKeys)
    requires PlainRow(key, rs, json) && !op.Delete? && !op.DeleteDisabled? && !op.Append?
    ensures PlainRow(key, Apply(rs, op), json)
  {
    ApplyKeepsPlain(rs, op);
    if op.MarkDisabled? {
      MarkFirstKeys(rs, op.usingKey, op.reason, op.now);
    } else {
      assert KeysOf(Apply(rs, op)) == KeysOf(rs);
    }
  }

  /** On plain keys every step meets its condition and leaves plain keys. */
  lemma PlainStep(key: string, rs: seq<Record>, op: Op, json: JsonKeys)
    requires PlainRow(key, rs, json) && PlainOp(op)
    ensures StepOk(key, rs, op, json) && PlainRow(NextKey(key, rs, op, json), Apply(rs, op), json)
  {
    match op
    case Delete(i) => DeletePlain(key, rs, i, json);
    case DeleteDisabled => DeleteDisabledPlain(key, rs, json);
    case Append(input) => AppendPlain(key, rs, input, json);
    case _ => SameKeysPlain(key, rs, op, json);
  }

  lemma {:induction false} PlainRun(key: string, rs: seq<Record>, calls: seq<Call>, json: JsonKeys)
    requires PlainRow(key, rs, json) && forall i | 0 <= i < |calls| :: PlainOp(calls[i].op)
    ensures StepsOk(key, rs, calls, json)
    decreases calls
  {
    if calls != [] {
      if Takes(calls[0]) {
        PlainStep(key, rs, calls[0].op, json);
        PlainRun(NextKey(key, rs, calls[0].op, json), Apply(rs, calls[0].op), calls[1..], json);
      } else {
        PlainRun(key, rs, calls[1..], json);
      }
    }
  }

  /** So on plain keys every run refines the same run on the list. */
  method PlainRunRefinesList(c: Channel, calls: seq<Call>)
    requires c.Valid() && PlainRow(c.key, c.List(), c.json)
    requires forall i | 0 <= i < |calls| :: PlainOp(calls[i].op)
    modifies c
    ensures c.Valid() && c.List() == ApplyAll(old(c.List()), calls)
  {
    PlainRun(c.key, c.List(), calls, c.json);
    RunRefinesList(c, calls);
  }

  /** The intended meaning of deleting the auto-disabled keys holds exactly unless all keys are
      auto-disabled. */
  lemma DeleteDisabledIff(rs: seq<Record>)
    requires rs != []
    ensures Apply(rs, DeleteDisabled) == WithoutAutoDisabled(rs) <==>
      exists i :: 0 <= i < |rs| && rs[i].status != AUTO_DISABLED
  {
    KeptKeys(rs);
  }
}
