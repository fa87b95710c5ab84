/**
  A multi-key channel: one text column holding the keys and three sparse maps, indexed by key
  position, for status, disabling time and disabling reason.  The plain thing it stands for is a
  list of key records.
*/
module MultiKey {
  import opened Basics
  import opened Text
  import opened ModelNames

  const ENABLED := 1
  const MANUALLY_DISABLED := 2
  const AUTO_DISABLED := 3

  // ---------------------------------------------------------------- the plain list

  datatype Record = Record(key: string, status: int, time: Option<int>, reason: Option<string>)

  function Enabled(r: Record): Record {
    Record(r.key, ENABLED, None, None)
  }

  function EnableAllRecords(rs: seq<Record>): seq<Record> {
    seq(|rs|, i requires 0 <= i < |rs| => Enabled(rs[i]))
  }

  function DisableAllRecords(rs: seq<Record>): seq<Record> {
    seq(|rs|, i requires 0 <= i < |rs| =>
      if rs[i].status == ENABLED then rs[i].(status := MANUALLY_DISABLED) else rs[i])
  }

  function WithoutAt<T>(xs: seq<T>, i: int): seq<T>
    requires 0 <= i < |xs|
  {
    xs[..i] + xs[i + 1..]
  }

  function WithoutAutoDisabled(rs: seq<Record>): seq<Record> {
    if rs == [] then []
    else
      var prior := WithoutAutoDisabled(rs[..|rs| - 1]);
      if rs[|rs| - 1].status == AUTO_DISABLED then prior else prior + [rs[|rs| - 1]]
  }

  function KeysOf(rs: seq<Record>): seq<string> {
    seq(|rs|, i requires 0 <= i < |rs| => rs[i].key)
  }

  // ---------------------------------------------------------------- the sparse maps

  datatype Info = Info(status: map<int, int>, time: map<int, int>, reason: map<int, string>)

  const NO_INFO := Info(map[], map[], map[])

  function Lookup<T>(m: map<int, T>, i: int): Option<T> {
    if i in m then Some(m[i]) else None
  }

  function StatusAt(info: Info, i: int): int {
    if i in info.status then info.status[i] else ENABLED
  }

  function RecordAt(keys: seq<string>, info: Info, i: int): Record
    requires 0 <= i < |keys|
  {
    Record(keys[i], StatusAt(info, i), Lookup(info.time, i), Lookup(info.reason, i))
  }

  /** The list of records the column and the maps stand for. */
  function Records(keys: seq<string>, info: Info): seq<Record> {
    seq(|keys|, i requires 0 <= i < |keys| => RecordAt(keys, info, i))
  }

  /** Only positions of the n keys are mentioned, and time and reason only for disabled keys. */
  ghost predicate InfoOk(info: Info, n: int) {
    && (forall i | i in info.status :: 0 <= i < n)
    && (forall i | i in info.time :: 0 <= i < n && StatusAt(info, i) != ENABLED)
    && (forall i | i in info.reason :: 0 <= i < n && StatusAt(info, i) != ENABLED)
  }

  // ---------------------------------------------------------------- the key column

  /** The parser for a column in JSON array form: its elements, if the text is such an array. */
  type JsonKeys = string -> Option<seq<string>>

  predicate ReadsAsJson(text: string, json: JsonKeys) {
    "[" <= TrimSpace(text) && json(TrimSpace(text)).Some?
  }

  /** Channel.GetKeys. */
  function GetKeys(text: string, json: JsonKeys): seq<string> {
    if text == "" then []
    else if ReadsAsJson(text, json) then json(TrimSpace(text)).value
    else ReadList(text, '\n')
  }

  /** The number of keys as Channel.Update counts them: an empty JSON array falls back to lines. */
  function CountKeys(text: string, json: JsonKeys): nat {
    if text == "" then 0
    else if ReadsAsJson(text, json) && json(TrimSpace(text)).value != [] then |json(TrimSpace(text)).value|
    else |ReadList(text, '\n')|
  }

  /** The text is read as exactly these keys, and they are counted right. */
  predicate ReadsAs(text: string, keys: seq<string>, json: JsonKeys) {
    if text == "" then keys == []
    else if ReadsAsJson(text, json) then keys != [] && json(TrimSpace(text)).value == keys
    else ReadList(text, '\n') == keys
  }

  lemma ReadsAsIff(text: string, keys: seq<string>, json: JsonKeys)
    ensures ReadsAs(text, keys, json) <==> GetKeys(text, json) == keys && CountKeys(text, json) == |keys|
  {
    ReadListShape(text, '\n');
  }

  // ---------------------------------------------------------------- writing keys as lines

  /** The key column after an update: an empty submission is not written. */
  function StoredKey(before: string, submitted: string): string {
    if submitted != "" then submitted else before
  }

  /** Submitting the keys as lines stores them: an empty submission leaves a column that already reads as
      them, a text that reads as a JSON array has them as its elements, and any other text has no
      line break inside a key and no blank key at either end. */
  predicate Writable(before: string, keys: seq<string>, json: JsonKeys) {
    var text := Join(keys, '\n');
    if text == "" then ReadsAs(before, keys, json)
    else if ReadsAsJson(text, json) then json(TrimSpace(text)).value == keys
    else Storable(keys, '\n')
  }

  lemma WritableIff(before: string, keys: seq<string>, json: JsonKeys)
    ensures Writable(before, keys, json) <==> ReadsAs(StoredKey(before, Join(keys, '\n')), keys, json)
  {
    ReadBackIff(keys, '\n');
  }

  // ---------------------------------------------------------------- appending one record

  function Put<T>(m: map<int, T>, i: int, v: Option<T>): map<int, T> {
    if v.Some? then m[i := v.value] else m
  }

  /** The maps extended by what a record at position n needs. */
  function PutRecord(info: Info, n: int, r: Record): Info {
    Info(Put(info.status, n, if r.status != ENABLED then Some(r.status) else None),
         Put(info.time, n, r.time), Put(info.reason, n, r.reason))
  }

  predicate Proper(r: Record) {
    r.status == ENABLED ==> r.time.None? && r.reason.None?
  }

  lemma PutRecordAppends(keys: seq<string>, info: Info, r: Record)
    requires InfoOk(info, |keys|) && Proper(r)
    ensures InfoOk(PutRecord(info, |keys|, r), |keys| + 1)
    ensures Records(keys + [r.key], PutRecord(info, |keys|, r)) == Records(keys, info) + [r]
  {
  }

  lemma RecordsProper(keys: seq<string>, info: Info, i: int)
    requires InfoOk(info, |keys|) && 0 <= i < |keys|
    ensures Proper(Records(keys, info)[i]) && Records(keys, info)[i].key == keys[i]
  {
  }

  lemma KeysOfRecords(keys: seq<string>, info: Info)
    ensures KeysOf(Records(keys, info)) == keys
  {
  }

  lemma {:induction false} KeptMember(rs: seq<Record>, r: Record)
    ensures r in WithoutAutoDisabled(rs) <==> r in rs && r.status != AUTO_DISABLED
  {
    if rs != [] {
      var n := |rs| - 1;
      KeptMember(rs[..n], r);
      assert r in rs <==> r in rs[..n] || r == rs[n];
    }
  }

  lemma {:induction false} KeptCount(rs: seq<Record>)
    ensures |WithoutAutoDisabled(rs)| <= |rs|
    ensures |WithoutAutoDisabled(rs)| == |rs| <==> forall i | 0 <= i < |rs| :: rs[i].status != AUTO_DISABLED
    ensures WithoutAutoDisabled(rs) == [] <==> forall i | 0 <= i < |rs| :: rs[i].status == AUTO_DISABLED
  {
    if rs != [] {
      KeptCount(rs[..|rs| - 1]);
    }
  }

  lemma KeptKeys(rs: seq<Record>)
    ensures |WithoutAutoDisabled(rs)| <= |rs|
    ensures |WithoutAutoDisabled(rs)| == |rs| <==> forall i | 0 <= i < |rs| :: rs[i].status != AUTO_DISABLED
    ensures WithoutAutoDisabled(rs) == [] <==> forall i | 0 <= i < |rs| :: rs[i].status == AUTO_DISABLED
    ensures forall r :: r in WithoutAutoDisabled(rs) <==> r in rs && r.status != AUTO_DISABLED
  {
    KeptCount(rs);
    forall r ensures r in WithoutAutoDisabled(rs) <==> r in rs && r.status != AUTO_DISABLED {
      KeptMember(rs, r);
    }
  }

  // ---------------------------------------------------------------- which deletions the column survives

  /** A column without blank lines at its ends loses one key and is still read back, exactly unless
      the deletion brings a blank key to one end. */
  lemma DeletedStorableIff(keys: seq<string>, i: int)
    requires Storable(keys, '\n') && |keys| >= 2 && 0 <= i < |keys|
    ensures Storable(WithoutAt(keys, i), '\n') <==>
      !(i == 0 && keys[1] == "") && !(i == |keys| - 1 && keys[|keys| - 2] == "")
  {
    var rest := WithoutAt(keys, i);
    assert forall j | 0 <= j < |rest| :: rest[j] == if j < i then keys[j] else keys[j + 1];
  }
}
