/** The operations of a multi-key channel on its stored row, and the list of records they refine. */
module MultiKeyChannel {
  import opened Basics
  import opened Text
  import opened ModelNames
  import opened MultiKey
  import opened MultiKeyAppend

  datatype Outcome =
    | Done(count: int)
    | MissingIndex
    | IndexOutOfRange
    | LastKey
    | NothingToDo
    | StoreFailed

  /** An update writes the row and then refreshes the ability table; either may fail. */
  datatype Store = Saved | AbilitiesFailed | NotSaved

  /** Channel.Update drops statuses beyond the key count (and leaves times and reasons alone). */
  function Pruned(info: Info, n: int): Info {
    info.(status := map i | i in info.status && i < n :: info.status[i])
  }

  /** The clean-up loop of Channel.Update. */
  method PruneStatuses(status: map<int, int>, n: int) returns (kept: map<int, int>)
    ensures kept == Pruned(Info(status, map[], map[]), n).status
  {
    kept := status;
    while exists i :: i in kept && i >= n
      invariant kept.Keys <= status.Keys
      invariant forall i | i in kept :: kept[i] == status[i]
      invariant forall i | i in status && i < n :: i in kept
      decreases |kept|
    {
      var i :| i in kept && i >= n;
      kept := kept - {i};
    }
  }

  lemma PrunedIsSame(info: Info, n: int)
    requires InfoOk(info, n)
    ensures Pruned(info, n) == info
  {
  }

  /** A column rewritten with some keys stands for them exactly when they are writable. */
  lemma RewrittenColumn(before: string, keys: seq<string>, info: Info, json: JsonKeys)
    requires InfoOk(info, |keys|)
    ensures var text := StoredKey(before, Join(keys, '\n'));
      && (Writable(before, keys, json) <==> GetKeys(text, json) == keys && CountKeys(text, json) == |keys|)
      && (Writable(before, keys, json) ==> Pruned(info, CountKeys(text, json)) == info)
  {
    WritableIff(before, keys, json);
    ReadsAsIff(StoredKey(before, Join(keys, '\n')), keys, json);
    PrunedIsSame(info, |keys|);
  }

  /** The rows before and after that rewriting, as lists of records. */
  lemma RewrittenRows(before: string, rs: seq<Record>, keys: seq<string>, info: Info, json: JsonKeys)
    requires InfoOk(info, |keys|) && Records(keys, info) == rs
    ensures var text := StoredKey(before, Join(keys, '\n'));
      var n := CountKeys(text, json);
      Writable(before, keys, json) <==>
        && n == |GetKeys(text, json)| && InfoOk(Pruned(info, n), n)
        && Records(GetKeys(text, json), Pruned(info, n)) == rs
  {
    var text := StoredKey(before, Join(keys, '\n'));
    RewrittenColumn(before, keys, info, json);
    KeysOfRecords(GetKeys(text, json), Pruned(info, CountKeys(text, json)));
    KeysOfRecords(keys, info);
  }

  /** When append mode stores what it promises, said of the column and the input. */
  predicate AppendStores(text: string, input: string, json: JsonKeys) {
    if text == "" then FirstKeysOk(input, json) else AppendOk(text, input, json)
  }

  lemma AppendStoresIff(text: string, info: Info, input: string, json: JsonKeys)
    requires InfoOk(info, |GetKeys(text, json)|)
    ensures var keys := GetKeys(text, json);
      AppendStores(text, input, json) <==>
        ReadsAs(StoredKey(text, AppendedText(text, input, json)), keys + NewKeys(keys, input), json)
  {
    if text == "" {
      assert [] + NewKeys([], input) == NewKeys([], input);
      FirstKeysIff(input, json);
    } else {
      AppendIff(text, info, input, json);
    }
  }

  lemma AppendedRows(text: string, info: Info, input: string, json: JsonKeys)
    requires InfoOk(info, |GetKeys(text, json)|)
    ensures var keys := GetKeys(text, json);
      var stored := StoredKey(text, AppendedText(text, input, json));
      var n := CountKeys(stored, json);
      AppendStores(text, input, json) <==>
        && n == |GetKeys(stored, json)| && InfoOk(Pruned(info, n), n)
        && Records(GetKeys(stored, json), Pruned(info, n)) == Records(keys, info) + FreshRecords(NewKeys(keys, input))
  {
    var keys, added := GetKeys(text, json), NewKeys(GetKeys(text, json), input);
    var stored := StoredKey(text, AppendedText(text, input, json));
    AppendStoresIff(text, info, input, json);
    ReadsAsIff(stored, keys + added, json);
    RecordsOfExtended(keys, added, info);
    PrunedIsSame(info, |keys + added|);
    KeysOfRecords(GetKeys(stored, json), Pruned(info, CountKeys(stored, json)));
    KeysOfRecords(keys + added, info);
  }

  lemma MarkedRecords(keys: seq<string>, info: Info, i: nat, status: int, reason: string, now: int)
    requires InfoOk(info, |keys|) && i < |keys| && status != ENABLED
    ensures var marked := Info(info.status[i := status], info.time[i := now], info.reason[i := reason]);
      && InfoOk(marked, |keys|)
      && Records(keys, marked) == Records(keys, info)[i := Record(keys[i], status, Some(now), Some(reason))]
  {
  }

  /** Without its status a key is enabled, but keeps a time and a reason. */
  lemma UnmarkedRecords(keys: seq<string>, info: Info, i: nat)
    requires InfoOk(info, |keys|) && i < |keys|
    ensures var unmarked := info.(status := info.status - {i});
      && Records(keys, unmarked) == Records(keys, info)[i := Records(keys, info)[i].(status := ENABLED)]
      && (InfoOk(unmarked, |keys|) <==> i !in info.time && i !in info.reason)
  {
    var unmarked := info.(status := info.status - {i});
    assert StatusAt(unmarked, i) == ENABLED;
  }

  lemma Member<T>(xs: set<T>) returns (x: T)
    requires xs != {}
    ensures x in xs
  {
    x :| x in xs;
  }

  lemma EmptyInfo(info: Info)
    requires InfoOk(info, 0)
    ensures info == NO_INFO
  {
    if info.status.Keys != {} { var i := Member(info.status.Keys); }
    if info.time.Keys != {} { var i := Member(info.time.Keys); }
    if info.reason.Keys != {} { var i := Member(info.reason.Keys); }
  }

  /** The row when every key was deleted: the column stays, and nothing is disabled any more. */
  lemma EmptiedRow(text: string, before: Info, info: Info, json: JsonKeys)
    requires InfoOk(info, 0) && CountKeys(text, json) == |GetKeys(text, json)|
    ensures StoredKey(text, Join([], '\n')) == text && Pruned(info, CountKeys(text, json)) == info == NO_INFO
    ensures Records(GetKeys(text, json), info) == EnableAllRecords(Records(GetKeys(text, json), before))
  {
    EmptyInfo(info);
  }

  /** One more line of input adds its key unless the key is present or came before. */
  lemma NewKeysStep(lines: seq<string>, i: int, present: seq<string>)
    requires 0 <= i < |lines|
    ensures Drop(Uniq(lines[..i + 1]), present) ==
      if lines[i] in lines[..i] || lines[i] in present then Drop(Uniq(lines[..i]), present)
      else Drop(Uniq(lines[..i]), present) + [lines[i]]
  {
    assert lines[..i + 1][..i] == lines[..i];
    UniqProperties(lines[..i]);
    var xs := Uniq(lines[..i]);
    assert (xs + [lines[i]])[..|xs|] == xs;
  }

  /** Extending the record list by one, at the end of a loop over the keys. */
  lemma RecordStep(rs: seq<Record>, i: int, d: int)
    requires 0 <= i < |rs|
    ensures 0 <= d < i ==> WithoutAt(rs[..i + 1], d) == WithoutAt(rs[..i], d) + [rs[i]]
    ensures d == i ==> WithoutAt(rs[..i + 1], d) == rs[..i]
    ensures rs[..i + 1] == rs[..i] + [rs[i]]
    ensures WithoutAutoDisabled(rs[..i + 1]) ==
      if rs[i].status == AUTO_DISABLED then WithoutAutoDisabled(rs[..i]) else WithoutAutoDisabled(rs[..i]) + [rs[i]]
  {
    assert rs[..i + 1][..i] == rs[..i];
  }

  class Channel {
    var key: string
    var size: int
    var statusList: map<int, int>
    var disabledTime: map<int, int>
    var disabledReason: map<int, string>
    var channelStatus: int
    const json: JsonKeys

    function Keys(): seq<string>
      reads this
    {
      GetKeys(key, json)
    }

    function CurrentInfo(): Info
      reads this
    {
      Info(statusList, disabledTime, disabledReason)
    }

    /** The records the row stands for. */
    function List(): seq<Record>
      reads this
    {
      Records(Keys(), CurrentInfo())
    }

    ghost predicate Valid()
      reads this
    {
      size == |Keys()| == CountKeys(key, json) && InfoOk(CurrentInfo(), |Keys()|)
    }

    constructor (text: string, parser: JsonKeys)
      ensures key == text && json == parser && size == CountKeys(text, parser) && CurrentInfo() == NO_INFO
      ensures channelStatus == ENABLED
    {
      key, json := text, parser;
      size := CountKeys(text, parser);
      statusList, disabledTime, disabledReason := map[], map[], map[];
      channelStatus := ENABLED;
    }

    /** Channel.Update: an empty key column is not written; a failing refresh of the ability table is
        reported although the row was written. */
    method Update(newKey: string, info: Info, store: Store) returns (ok: bool)
      modifies this`key, this`size, this`statusList, this`disabledTime, this`disabledReason
      ensures ok <==> store == Saved
      ensures store == NotSaved ==> key == old(key) && size == old(size) && CurrentInfo() == old(CurrentInfo())
      ensures store != NotSaved ==> key == StoredKey(old(key), newKey)
      ensures store != NotSaved ==> size == CountKeys(key, json) && CurrentInfo() == Pruned(info, size)
    {
      if store == NotSaved {
        return false;
      }
      if newKey != "" {
        key := newKey;
      }
      size := CountKeys(key, json);
      var kept := PruneStatuses(info.status, size);
      statusList, disabledTime, disabledReason := kept, info.time, info.reason;
      return store == Saved;
    }

    /** The outcome of an operation on the key at an index. */
    static predicate AnswersFor(r: Outcome, keyIndex: Option<int>, n: int, store: Store) {
      r == if keyIndex.None? then MissingIndex
           else if !(0 <= keyIndex.value < n) then IndexOutOfRange
           else if store == Saved then Done(1) else StoreFailed
    }

    /** disable_key. */
    method DisableKey(keyIndex: Option<int>, store: Store) returns (r: Outcome)
      requires Valid()
      modifies this`key, this`size, this`statusList, this`disabledTime, this`disabledReason
      ensures Valid() && key == old(key) && AnswersFor(r, keyIndex, old(|List()|), store)
      ensures List() ==
        if keyIndex.Some? && 0 <= keyIndex.value < old(|List()|) && store != NotSaved
        then old(List())[keyIndex.value := old(List())[keyIndex.value].(status := MANUALLY_DISABLED)]
        else old(List())
    {
      if keyIndex.None? { return MissingIndex; }
      var i := keyIndex.value;
      if i < 0 || i >= size { return IndexOutOfRange; }
      var info := CurrentInfo().(status := statusList[i := MANUALLY_DISABLED]);
      PrunedIsSame(info, size);
      var ok := Update(key, info, store);
      return if ok then Done(1) else StoreFailed;
    }

    /** enable_key. */
    method EnableKey(keyIndex: Option<int>, store: Store) returns (r: Outcome)
      requires Valid()
      modifies this`key, this`size, this`statusList, this`disabledTime, this`disabledReason
      ensures Valid() && key == old(key) && AnswersFor(r, keyIndex, old(|List()|), store)
      ensures List() ==
        if keyIndex.Some? && 0 <= keyIndex.value < old(|List()|) && store != NotSaved
        then old(List())[keyIndex.value := Enabled(old(List())[keyIndex.value])]
        else old(List())
    {
      if keyIndex.None? { return MissingIndex; }
      var i := keyIndex.value;
      if i < 0 || i >= size { return IndexOutOfRange; }
      var info := Info(statusList - {i}, disabledTime - {i}, disabledReason - {i});
      assert InfoOk(info, size);
      PrunedIsSame(info, size);
      var ok := Update(key, info, store);
      return if ok then Done(1) else StoreFailed;
    }

    /** enable_all_keys. */
    method EnableAllKeys(store: Store) returns (r: Outcome)
      requires Valid()
      modifies this`key, this`size, this`statusList, this`disabledTime, this`disabledReason
      ensures Valid() && key == old(key)
      ensures r == if store == Saved then Done(old(|statusList|)) else StoreFailed
      ensures List() == if store != NotSaved then EnableAllRecords(old(List())) else old(List())
    {
      var count := |statusList|;
      PrunedIsSame(NO_INFO, size);
      var ok := Update(key, NO_INFO, store);
      return if ok then Done(count) else StoreFailed;
    }

    /** disable_all_keys. */
    method DisableAllKeys(store: Store) returns (r: Outcome)
      requires Valid()
      modifies this`key, this`size, this`statusList, this`disabledTime, this`disabledReason
      ensures Valid() && key == old(key)
      ensures r == NothingToDo <==> forall i | 0 <= i < old(|List()|) :: old(List())[i].status != ENABLED
      ensures r != NothingToDo ==> if store == Saved then r.Done? else r == StoreFailed
      ensures List() ==
        if r != NothingToDo && store != NotSaved then DisableAllRecords(old(List())) else old(List())
    {
      var status := statusList;
      var count := 0;
      ghost var before := CurrentInfo();
      var i := 0;
      while i < size
        invariant 0 <= i <= size
        invariant forall j | j in status :: 0 <= j < size
        invariant forall j | i <= j < size :: j in status <==> j in statusList
        invariant forall j | i <= j < size && j in status :: status[j] == statusList[j]
        invariant forall j | 0 <= j < i ::
          j in status && status[j] == if StatusAt(before, j) == ENABLED then MANUALLY_DISABLED else StatusAt(before, j)
        invariant count >= 0
        invariant count == 0 ==> forall j | 0 <= j < i :: StatusAt(before, j) != ENABLED
        invariant count > 0 ==> exists j :: 0 <= j < i && List()[j].status == ENABLED
      {
        if i !in status || status[i] == ENABLED {
          status := status[i := MANUALLY_DISABLED];
          count := count + 1;
          assert List()[i].status == ENABLED;
        }
        i := i + 1;
      }
      if count == 0 { return NothingToDo; }
      var info := CurrentInfo().(status := status);
      assert InfoOk(info, size);
      PrunedIsSame(info, size);
      var ok := Update(key, info, store);
      return if ok then Done(count) else StoreFailed;
    }

    /** The entries of one key, copied to its new index. */
    method CopyEntries(i: int, newIndex: int, info: Info) returns (copied: Info)
      requires 0 <= i < |Keys()|
      ensures copied == PutRecord(info, newIndex, List()[i])
    {
      var status, time, reason := info.status, info.time, info.reason;
      if i in statusList && statusList[i] != ENABLED { status := status[newIndex := statusList[i]]; }
      if i in disabledTime { time := time[newIndex := disabledTime[i]]; }
      if i in disabledReason { reason := reason[newIndex := disabledReason[i]]; }
      copied := Info(status, time, reason);
    }

    /** The loop of delete_key: every other key moves up with what the maps say about it. */
    method RemainingAfter(d: int) returns (remaining: seq<string>, info: Info)
      requires Valid() && 0 <= d < |Keys()|
      ensures InfoOk(info, |remaining|) && |remaining| == |Keys()| - 1
      ensures Records(remaining, info) == WithoutAt(List(), d)
    {
      var keys := Keys();
      ghost var rs := List();
      remaining, info := [], NO_INFO;
      for i := 0 to |keys|
        invariant |remaining| == if i <= d then i else i - 1
        invariant InfoOk(info, |remaining|)
        invariant Records(remaining, info) == if i <= d then rs[..i] else WithoutAt(rs[..i], d)
      {
        RecordStep(rs, i, d);
        if i != d {
          RecordsProper(keys, CurrentInfo(), i);
          PutRecordAppends(remaining, info, rs[i]);
          info := CopyEntries(i, |remaining|, info);
          remaining := remaining + [keys[i]];
        }
      }
      assert rs[..|keys|] == rs;
    }

    /** Stores a rewritten key list: the row then stands for it exactly when the keys are writable. */
    method Rewrite(keys: seq<string>, info: Info, store: Store) returns (ok: bool)
      requires InfoOk(info, |keys|)
      modifies this`key, this`size, this`statusList, this`disabledTime, this`disabledReason
      ensures ok <==> store == Saved
      ensures store == NotSaved ==> key == old(key) && size == old(size) && CurrentInfo() == old(CurrentInfo())
      ensures store != NotSaved ==>
        && key == StoredKey(old(key), Join(keys, '\n'))
        && size == CountKeys(key, json) && CurrentInfo() == Pruned(info, size)
        && (Writable(old(key), keys, json) <==> Valid() && List() == Records(keys, info))
    {
      RewrittenRows(key, Records(keys, info), keys, info, json);
      ok := Update(Join(keys, '\n'), info, store);
    }

    /** delete_key.  The stored column then stands for the remaining records exactly when their keys are
        writable; for a column of lines see DeletedStorableIff. */
    method DeleteKey(keyIndex: Option<int>, store: Store) returns (r: Outcome)
      requires Valid()
      modifies this`key, this`size, this`statusList, this`disabledTime, this`disabledReason
      ensures keyIndex != Some(0) || old(|List()|) != 1 ==> AnswersFor(r, keyIndex, old(|List()|), store)
      ensures keyIndex == Some(0) && old(|List()|) == 1 ==> r == LastKey
      ensures
        if keyIndex.Some? && 0 <= keyIndex.value < old(|List()|) && old(|List()|) > 1 && store != NotSaved then
          && key == StoredKey(old(key), Join(WithoutAt(old(Keys()), keyIndex.value), '\n'))
          && (Writable(old(key), WithoutAt(old(Keys()), keyIndex.value), json) <==>
                Valid() && List() == WithoutAt(old(List()), keyIndex.value))
        else Valid() && key == old(key) && List() == old(List())
    {
      if keyIndex.None? { return MissingIndex; }
      var d := keyIndex.value;
      if d < 0 || d >= size { return IndexOutOfRange; }
      var remaining, info := RemainingAfter(d);
      if |remaining| == 0 { return LastKey; }
      RemainingKeys(Keys(), CurrentInfo(), remaining, info, d);
      var ok := Rewrite(remaining, info, store);
      return if ok then Done(1) else StoreFailed;
    }

    static lemma RemainingKeys(keys: seq<string>, before: Info, remaining: seq<string>, info: Info, d: int)
      requires 0 <= d < |keys| && |remaining| == |keys| - 1
      requires Records(remaining, info) == WithoutAt(Records(keys, before), d)
      ensures remaining == WithoutAt(keys, d)
    {
      forall j | 0 <= j < |remaining| ensures remaining[j] == WithoutAt(keys, d)[j] {
        assert Records(remaining, info)[j].key == remaining[j];
      }
    }

    /** The same for delete_disabled_keys, which looks at time and reason of disabled keys only. */
    method CopyDisabledEntries(i: int, newIndex: int, info: Info) returns (copied: Info)
      requires Valid() && 0 <= i < |Keys()|
      ensures copied == PutRecord(info, newIndex, List()[i])
    {
      var s := if i in statusList then statusList[i] else ENABLED;
      var status, time, reason := info.status, info.time, info.reason;
      if s != ENABLED {
        status := status[newIndex := s];
        if i in disabledTime { time := time[newIndex := disabledTime[i]]; }
        if i in disabledReason { reason := reason[newIndex := disabledReason[i]]; }
      }
      copied := Info(status, time, reason);
    }

    /** The loop of delete_disabled_keys. */
    method RemainingEnabled() returns (remaining: seq<string>, info: Info, deleted: int)
      requires Valid()
      ensures InfoOk(info, |remaining|) && |remaining| == |Keys()| - deleted
      ensures Records(remaining, info) == WithoutAutoDisabled(List())
    {
      var keys := Keys();
      ghost var rs := List();
      remaining, info, deleted := [], NO_INFO, 0;
      for i := 0 to |keys|
        invariant |remaining| == i - deleted
        invariant InfoOk(info, |remaining|)
        invariant Records(remaining, info) == WithoutAutoDisabled(rs[..i])
      {
        RecordStep(rs, i, i);
        var s := if i in statusList then statusList[i] else ENABLED;
        assert rs[i].status == s;
        if s == AUTO_DISABLED {
          deleted := deleted + 1;
        } else {
          RecordsProper(keys, CurrentInfo(), i);
          PutRecordAppends(remaining, info, rs[i]);
          info := CopyDisabledEntries(i, |remaining|, info);
          remaining := remaining + [keys[i]];
        }
      }
      assert rs[..|keys|] == rs;
    }

    /** delete_disabled_keys.  When every key is auto-disabled the emptied column is not written, so the
        keys stay and their cleared maps enable all of them; otherwise the remaining records are stored
        exactly when their keys are writable. */
    method DeleteDisabledKeys(store: Store) returns (r: Outcome)
      requires Valid()
      modifies this`key, this`size, this`statusList, this`disabledTime, this`disabledReason
      ensures r == NothingToDo <==> forall i | 0 <= i < old(|List()|) :: old(List())[i].status != AUTO_DISABLED
      ensures r != NothingToDo ==>
        r == if store == Saved then Done(old(|List()|) - |WithoutAutoDisabled(old(List()))|) else StoreFailed
      ensures r == NothingToDo || store == NotSaved ==> Valid() && key == old(key) && List() == old(List())
      ensures r != NothingToDo && store != NotSaved ==>
        && key == StoredKey(old(key), Join(KeysOf(WithoutAutoDisabled(old(List()))), '\n'))
        && (WithoutAutoDisabled(old(List())) == [] ==>
              Valid() && List() == EnableAllRecords(old(List())) && old(List()) != [])
        && (WithoutAutoDisabled(old(List())) != [] ==>
              (Writable(old(key), KeysOf(WithoutAutoDisabled(old(List()))), json) <==>
                 Valid() && List() == WithoutAutoDisabled(old(List()))))
    {
      KeptCount(List());
      var remaining, info, deleted := RemainingEnabled();
      KeysOfRecords(remaining, info);
      if deleted == 0 { return NothingToDo; }
      var ok := StoreRemaining(remaining, info, store);
      return if ok then Done(deleted) else StoreFailed;
    }

    /** Stores the keys that remain, if any; none leave the column and clear the maps. */
    method StoreRemaining(remaining: seq<string>, info: Info, store: Store) returns (ok: bool)
      requires Valid() && InfoOk(info, |remaining|)
      modifies this`key, this`size, this`statusList, this`disabledTime, this`disabledReason
      ensures ok <==> store == Saved
      ensures store == NotSaved ==> Valid() && key == old(key) && List() == old(List())
      ensures store != NotSaved ==>
        && key == StoredKey(old(key), Join(remaining, '\n'))
        && (remaining == [] ==> Valid() && List() == EnableAllRecords(old(List())))
        && (remaining != [] ==>
              (Writable(old(key), remaining, json) <==> Valid() && List() == Records(remaining, info)))
    {
      if remaining == [] {
        EmptiedRow(key, CurrentInfo(), info, json);
      }
      ok := Rewrite(remaining, info, store);
    }

    /** hasEnabledMultiKey. */
    static method HasEnabledKey(keys: seq<string>, statuses: map<int, int>) returns (found: bool)
      ensures found <==> exists i :: 0 <= i < |keys| && StatusAt(Info(statuses, map[], map[]), i) == ENABLED
    {
      for i := 0 to |keys|
        invariant forall j | 0 <= j < i :: StatusAt(Info(statuses, map[], map[]), j) != ENABLED
      {
        if i !in statuses || statuses[i] == ENABLED {
          assert StatusAt(Info(statuses, map[], map[]), i) == ENABLED;
          return true;
        }
      }
      return false;
    }

    /** The status of the channel itself after the status of a key was set: it follows the given status when
        there is no key to set it on, is auto-disabled when no enabled key is left, and becomes enabled
        with a key. */
    static function ChannelStatusAfter(before: int, usingKey: string, status: int, index: Option<int>,
                                       list: seq<Record>): int
    {
      if list == [] || (index.None? && usingKey == "") then status
      else if index.None? then before
      else if forall i | 0 <= i < |list| :: list[i].status != ENABLED then AUTO_DISABLED
      else if status == ENABLED then ENABLED
      else before
    }

    /** handlerMultiKeyUpdate: relay traffic disables the key it was using, or enables it again.
        Enabling leaves the time and reason behind, so it keeps the row valid exactly when the key
        had none. */
    method SetKeyStatus(usingKey: string, status: int, reason: string, now: int) returns (index: Option<int>)
      requires Valid()
      modifies this`statusList, this`disabledTime, this`disabledReason, this`channelStatus
      ensures index.None? <==> usingKey !in old(Keys())
      ensures index.Some? ==>
        && 0 <= index.value < old(|List()|)
        && old(Keys())[index.value] == usingKey && usingKey !in old(Keys())[..index.value]
      ensures index.None? ==> Valid() && List() == old(List())
      ensures index.Some? && status != ENABLED ==>
        && Valid()
        && List() == old(List())[index.value := Record(usingKey, status, Some(now), Some(reason))]
      ensures index.Some? && status == ENABLED ==>
        && List() == old(List())[index.value := old(List())[index.value].(status := ENABLED)]
        && (Valid() <==> old(List())[index.value].time.None? && old(List())[index.value].reason.None?)
      ensures channelStatus == ChannelStatusAfter(old(channelStatus), usingKey, status, index, List())
    {
      var keys := Keys();
      if |keys| == 0 {
        channelStatus := status;
        return None;
      }
      var i := FindKey(keys, usingKey);
      if i == |keys| {
        if usingKey == "" {
          channelStatus := status;
        }
        return None;
      }
      MarkKey(i, status, reason, now);
      var enabled := HasEnabledKey(keys, statusList);
      EnabledRecord(keys, CurrentInfo());
      if !enabled {
        channelStatus := AUTO_DISABLED;
      } else if status == ENABLED {
        channelStatus := ENABLED;
      }
      return Some(i);
    }

    static lemma EnabledRecord(keys: seq<string>, info: Info)
      ensures (exists i :: 0 <= i < |keys| && StatusAt(Info(info.status, map[], map[]), i) == ENABLED) <==>
        exists i :: 0 <= i < |Records(keys, info)| && Records(keys, info)[i].status == ENABLED
    {
      if i :| 0 <= i < |keys| && StatusAt(Info(info.status, map[], map[]), i) == ENABLED {
        assert Records(keys, info)[i].status == ENABLED;
      }
      if i :| 0 <= i < |keys| && Records(keys, info)[i].status == ENABLED {
        assert StatusAt(Info(info.status, map[], map[]), i) == ENABLED;
      }
    }

    static method FindKey(keys: seq<string>, usingKey: string) returns (i: nat)
      ensures i <= |keys| && usingKey !in keys[..i] && (i < |keys| ==> keys[i] == usingKey)
      ensures i == |keys| <==> usingKey !in keys
    {
      i := 0;
      while i < |keys| && keys[i] != usingKey
        invariant 0 <= i <= |keys| && usingKey !in keys[..i]
      {
        i := i + 1;
      }
      assert keys[..|keys|] == keys;
    }

    method MarkKey(i: nat, status: int, reason: string, now: int)
      requires Valid() && i < |Keys()|
      modifies this`statusList, this`disabledTime, this`disabledReason
      ensures status != ENABLED ==>
        Valid() && List() == old(List())[i := Record(old(Keys())[i], status, Some(now), Some(reason))]
      ensures status == ENABLED ==>
        && List() == old(List())[i := old(List())[i].(status := ENABLED)]
        && (Valid() <==> old(List())[i].time.None? && old(List())[i].reason.None?)
    {
      if status == ENABLED {
        UnmarkedRecords(Keys(), CurrentInfo(), i);
        statusList := statusList - {i};
      } else {
        MarkedRecords(Keys(), CurrentInfo(), i, status, reason, now);
        statusList := statusList[i := status];
        disabledReason := disabledReason[i := reason];
        disabledTime := disabledTime[i := now];
      }
    }

    /** The deduplication loop of append mode. */
    static method CollectNewKeys(existing: seq<string>, input: string) returns (added: seq<string>)
      ensures added == NewKeys(existing, input)
    {
      var lines := TrimAll(Split(input, '\n'));
      var present := TrimAll(existing);
      var seen := set k | k in present;
      added := [];
      for i := 0 to |lines|
        invariant added == Drop(Uniq(lines[..i]), present)
        invariant forall k :: k in seen <==> k in present || k in lines[..i]
      {
        NewKeysStep(lines, i, present);
        forall k ensures k in lines[..i + 1] <==> k in lines[..i] || k == lines[i] {
          LastOrBefore(lines[..i + 1], k);
        }
        if lines[i] !in seen {
          seen := seen + {lines[i]};
          added := added + [lines[i]];
        }
      }
      assert lines[..|lines|] == lines;
    }

    /** Append mode of UpdateChannel.  An empty column takes the input as it is. */
    method AppendKeys(input: string, store: Store) returns (ok: bool)
      requires Valid()
      modifies this`key, this`size, this`statusList, this`disabledTime, this`disabledReason
      ensures ok <==> store == Saved
      ensures store == NotSaved ==> Valid() && key == old(key) && List() == old(List())
      ensures store != NotSaved ==>
        && key == StoredKey(old(key), AppendedText(old(key), input, json))
        && CurrentInfo() == Pruned(old(CurrentInfo()), size) && size == CountKeys(key, json)
        && (AppendStores(old(key), input, json) <==>
              Valid() && List() == old(List()) + FreshRecords(NewKeys(old(Keys()), input)))
    {
      AppendedRows(key, CurrentInfo(), input, json);
      var text := input;
      if key != "" {
        var existing := ExistingKeys(key, json);
        var added := CollectNewKeys(existing, input);
        text := Join(existing + added, '\n');
      }
      ok := Update(text, CurrentInfo(), store);
    }
  }

  // ---------------------------------------------------------------- the channel follows its keys

  /** Setting the status of a known key: an enabled channel stays enabled exactly as long as some key is, no
      channel outlives its last enabled key, and enabling a key enables the channel. */
  lemma ChannelFollowsKeys(before: int, usingKey: string, status: int, i: int, list: seq<Record>)
    requires 0 <= i < |list| && list[i].key == usingKey && list[i].status == status
    ensures var after := Channel.ChannelStatusAfter(before, usingKey, status, Some(i), list);
      && (before == 1 ==> (after == 1 <==> exists j :: 0 <= j < |list| && list[j].status == 1))
      && ((forall j | 0 <= j < |list| :: list[j].status != 1) ==> after == 3)
      && (status == 1 ==> after == 1)
      && (status != 1 && (exists j :: 0 <= j < |list| && list[j].status == 1) ==> after == before)
  {
    if j :| 0 <= j < |list| && list[j].status == 1 {
      assert list[j].status == ENABLED;
    }
  }

  /** An unknown key leaves the channel alone; without a key, or without any keys, the channel takes the status
      itself. */
  lemma ChannelWithoutKey(before: int, usingKey: string, status: int, list: seq<Record>)
    ensures Channel.ChannelStatusAfter(before, usingKey, status, None, list) ==
      if list != [] && usingKey != "" then before else status
  {
  }
}
