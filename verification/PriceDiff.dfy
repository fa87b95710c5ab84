/** The comparison of local prices with the prices of upstream channels. */
module PriceDiff {
  import opened Basics

  const EPSILON := 0.000000001

  /** The synchronised pricing fields, in the order in which they are visited. */
  datatype Field =
    | ModelRatio | CompletionRatio | CacheRatio | CreateCacheRatio | ImageRatio
    | AudioRatio | AudioCompletionRatio | ModelPrice | BillingMode | BillingExpr

  const FIELDS: seq<Field> :=
    [ModelRatio, CompletionRatio, CacheRatio, CreateCacheRatio, ImageRatio,
     AudioRatio, AudioCompletionRatio, ModelPrice, BillingMode, BillingExpr]

  lemma AllFields(f: Field)
    ensures exists k :: 0 <= k < |FIELDS| && FIELDS[k] == f
  {
    var k := match f
      case ModelRatio => 0
      case CompletionRatio => 1
      case CacheRatio => 2
      case CreateCacheRatio => 3
      case ImageRatio => 4
      case AudioRatio => 5
      case AudioCompletionRatio => 6
      case ModelPrice => 7
      case BillingMode => 8
      case BillingExpr => 9;
    assert FIELDS[k] == f;
  }

  /** A value of the fetched JSON; `Whole` is a Go integer and `Literal` a number kept as text, which only
      numeric fields convert, and `Structure` an array or object. */
  datatype Value =
    | Nil | Num(r: real) | Whole(n: int) | Literal(text: string, parsed: Option<real>)
    | Text(s: string) | Flag(b: bool) | Structure(json: string)

  /** asFloat64. */
  function AsNumber(v: Value): Option<real> {
    match v
    case Num(r) => Some(r)
    case Whole(n) => Some(n as real)
    case Literal(_, parsed) => parsed
    case _ => None
  }

  const SAME := Text("same")

  type Table = map<string, Value>
  type Data = map<Field, Table>
  datatype Channel = Channel(name: string, data: Data)

  datatype Item = Item(current: Value, upstreams: map<string, Value>, confidence: map<string, bool>)
  type Listing = map<string, map<Field, Item>>

  predicate Near(a: real, b: real) {
    if a > b then a - b < EPSILON else b - a < EPSILON
  }

  predicate Equal(a: Value, b: Value) {
    if a.Num? && b.Num? then Near(a.r, b.r) else a == b
  }

  predicate Numeric(f: Field) {
    !f.BillingMode? && !f.BillingExpr?
  }

  function Normalize(f: Field, v: Value): Value {
    if Numeric(f) && AsNumber(v).Some? then Num(AsNumber(v).value) else v
  }

  function TableOf(d: Data, f: Field): Table {
    if f in d then d[f] else map[]
  }

  predicate Present(d: Data, f: Field, m: string) {
    m in TableOf(d, f)
  }

  /** The normalised value, nil when it is missing. */
  function Get(d: Data, f: Field, m: string): Value {
    if Present(d, f, m) then Normalize(f, TableOf(d, f)[m]) else Nil
  }

  predicate IsAbout(v: Value, r: real) {
    AsNumber(v).Some? && Near(AsNumber(v).value, r)
  }

  /** The placeholder price 37.5 with completion ratio 1 is not trusted. */
  predicate Confident(d: Data, m: string) {
    !(&& Present(d, ModelRatio, m) && Present(d, CompletionRatio, m)
      && IsAbout(TableOf(d, ModelRatio)[m], 37.5) && IsAbout(TableOf(d, CompletionRatio)[m], 1.0))
  }

  // ---------------------------------------------------------------- what the passes compute

  /** What is listed for a channel: its value, or `SAME`, or nil when only local has a value. */
  function Mark(local: Data, d: Data, f: Field, m: string): Value {
    var l, u := Get(local, f, m), Get(d, f, m);
    if Equal(l, u) then SAME else u
  }

  /** The channel makes the pair count as different. */
  predicate Differs(local: Data, d: Data, f: Field, m: string) {
    var l, u := Get(local, f, m), Get(d, f, m);
    !Equal(l, u) && if l != Nil then Present(d, f, m) else u != SAME
  }

  predicate Included(local: Data, cs: seq<Channel>, f: Field, m: string) {
    if Get(local, f, m) != Nil then SomeDiffers(local, cs, f, m) else SomePresent(cs, f, m)
  }

  predicate SomeDiffers(local: Data, cs: seq<Channel>, f: Field, m: string) {
    cs != [] && (SomeDiffers(local, cs[..|cs| - 1], f, m) || Differs(local, cs[|cs| - 1].data, f, m))
  }

  predicate SomePresent(cs: seq<Channel>, f: Field, m: string) {
    cs != [] && (SomePresent(cs[..|cs| - 1], f, m) || Present(cs[|cs| - 1].data, f, m))
  }

  /** Maps keyed by channel name keep the last channel of each name. */
  function ByName(cs: seq<Channel>): map<string, Data> {
    if cs == [] then map[] else ByName(cs[..|cs| - 1])[cs[|cs| - 1].name := cs[|cs| - 1].data]
  }

  predicate Telling(v: Value) {
    v != Nil && v != SAME
  }

  /** The channel name shows a difference somewhere in the first listing. */
  ghost predicate Noisy(local: Data, cs: seq<Channel>, n: string) {
    n in ByName(cs) && exists m, f :: Included(local, cs, f, m) && Telling(Mark(local, ByName(cs)[n], f, m))
  }

  ghost predicate Kept(local: Data, cs: seq<Channel>, f: Field, m: string) {
    && Included(local, cs, f, m)
    && exists n :: n in ByName(cs) && Noisy(local, cs, n) && Mark(local, ByName(cs)[n], f, m) != SAME
  }

  function Marks(local: Data, named: map<string, Data>, f: Field, m: string): map<string, Value> {
    map n | n in named :: Mark(local, named[n], f, m)
  }

  function Confidence(named: map<string, Data>, m: string): map<string, bool> {
    map n | n in named :: Confident(named[n], m)
  }

  /** The item before pruning. */
  function FullItem(local: Data, cs: seq<Channel>, f: Field, m: string): Item {
    Item(Get(local, f, m), Marks(local, ByName(cs), f, m), Confidence(ByName(cs), m))
  }

  /** The item restricted to some channel names. */
  function Restrict(item: Item, names: set<string>): Item {
    Item(item.current,
         map n | n in item.upstreams && n in names :: item.upstreams[n],
         map n | n in item.confidence && n in names :: item.confidence[n])
  }

  predicate AllSame(item: Item) {
    forall n | n in item.upstreams :: item.upstreams[n] == SAME
  }

  // ---------------------------------------------------------------- the first pass

  ghost predicate Mentioned(local: Data, cs: seq<Channel>, m: string) {
    (exists f :: Present(local, f, m)) || MentionedBy(cs, m)
  }

  ghost predicate MentionedBy(cs: seq<Channel>, m: string) {
    exists i, f :: 0 <= i < |cs| && Present(cs[i].data, f, m)
  }

  method ModelsOf(d: Data) returns (models: set<string>)
    ensures forall m :: m in models <==> exists f :: Present(d, f, m)
  {
    models := {};
    for k := 0 to |FIELDS|
      invariant forall m :: m in models <==> exists j :: 0 <= j < k && Present(d, FIELDS[j], m)
    {
      models := models + TableOf(d, FIELDS[k]).Keys;
    }
    forall m ensures m in models <==> exists f :: Present(d, f, m) {
      forall f | Present(d, f, m) ensures m in models {
        AllFields(f);
      }
    }
  }

  method AllModels(local: Data, cs: seq<Channel>) returns (models: set<string>)
    ensures forall m :: m in models <==> Mentioned(local, cs, m)
  {
    models := ModelsOf(local);
    for i := 0 to |cs|
      invariant forall m :: m in models <==> Mentioned(local, cs[..i], m)
    {
      var more := ModelsOf(cs[i].data);
      forall m ensures m in models + more <==> Mentioned(local, cs[..i + 1], m) {
        MentionedMore(cs, i, m);
      }
      models := models + more;
    }
    assert cs[..|cs|] == cs;
  }

  lemma MentionedMore(cs: seq<Channel>, i: nat, m: string)
    requires i < |cs|
    ensures MentionedBy(cs[..i + 1], m) <==> MentionedBy(cs[..i], m) || exists f :: Present(cs[i].data, f, m)
  {
    if MentionedBy(cs[..i], m) {
      var j, f :| 0 <= j < i && Present(cs[..i][j].data, f, m);
      assert cs[..i + 1][j] == cs[j];
    }
    if f :| Present(cs[i].data, f, m) {
      assert cs[..i + 1][i] == cs[i];
    }
    if MentionedBy(cs[..i + 1], m) {
      var j, f :| 0 <= j < i + 1 && Present(cs[..i + 1][j].data, f, m);
      if j < i {
        assert cs[..i][j] == cs[j];
      }
    }
  }

  method ConfidenceIn(d: Data, models: set<string>) returns (conf: map<string, bool>)
    ensures conf == map m | m in models :: Confident(d, m)
  {
    var modelRatios, completionRatios := TableOf(d, ModelRatio), TableOf(d, CompletionRatio);
    conf := map[];
    var left := models;
    while left != {}
      invariant left <= models
      invariant conf == map m | m in models - left :: Confident(d, m)
    {
      var m :| m in left;
      var trusted := true;
      if |modelRatios| > 0 && |completionRatios| > 0 && m in modelRatios && m in completionRatios {
        if IsAbout(modelRatios[m], 37.5) && IsAbout(completionRatios[m], 1.0) {
          trusted := false;
        }
      }
      conf := conf[m := trusted];
      left := left - {m};
    }
  }

  /** The loop body for one channel: its mark, and whether it has a value and differs. */
  method Classify(local: Data, d: Data, f: Field, m: string) returns (upstream: Value, hasValue: bool, differs: bool)
    ensures upstream == Mark(local, d, f, m) && hasValue == Present(d, f, m) && differs == Differs(local, d, f, m)
  {
    var localValue := Get(local, f, m);
    upstream, hasValue, differs := Nil, false, false;
    if Present(d, f, m) {
      upstream := Get(d, f, m);
      hasValue := true;
      if localValue != Nil && !Equal(localValue, upstream) {
        differs := true;
      } else if Equal(localValue, upstream) {
        upstream := SAME;
      }
    }
    if upstream == Nil && localValue == Nil {
      upstream := SAME;
    }
    if localValue == Nil && upstream != Nil && upstream != SAME {
      differs := true;
    }
  }

  /** What the loop over the channels accumulates. */
  datatype Seen = Seen(upstreams: map<string, Value>, confidence: map<string, bool>, hasValue: bool, differs: bool)

  /** A lookup in the nested Go map, false where an entry is missing. */
  predicate Trusted(conf: map<string, map<string, bool>>, n: string, m: string) {
    n in conf && m in conf[n] && conf[n][m]
  }

  function See(s: Seen, local: Data, c: Channel, trusted: bool, f: Field, m: string): Seen {
    Seen(s.upstreams[c.name := Mark(local, c.data, f, m)], s.confidence[c.name := trusted],
         s.hasValue || Present(c.data, f, m), s.differs || Differs(local, c.data, f, m))
  }

  function SeeAll(local: Data, cs: seq<Channel>, conf: map<string, map<string, bool>>, f: Field, m: string): Seen {
    if cs == [] then Seen(map[], map[], false, false)
    else var c := cs[|cs| - 1]; See(SeeAll(local, cs[..|cs| - 1], conf, f, m), local, c, Trusted(conf, c.name, m), f, m)
  }

  method SeeChannels(local: Data, cs: seq<Channel>, conf: map<string, map<string, bool>>, f: Field, m: string)
    returns (seen: Seen)
    ensures seen == SeeAll(local, cs, conf, f, m)
  {
    seen := Seen(map[], map[], false, false);
    for i := 0 to |cs|
      invariant seen == SeeAll(local, cs[..i], conf, f, m)
    {
      var c := cs[i];
      var upstream, hasValue, differs := Classify(local, c.data, f, m);
      assert cs[..i + 1][..i] == cs[..i];
      seen := Seen(seen.upstreams[c.name := upstream], seen.confidence[c.name := Trusted(conf, c.name, m)],
                   seen.hasValue || hasValue, seen.differs || differs);
    }
    assert cs[..|cs|] == cs;
  }

  /** One entry of the first listing. */
  method BuildItem(local: Data, cs: seq<Channel>, conf: map<string, map<string, bool>>, f: Field, m: string)
    returns (wanted: bool, item: Item)
    requires Lookups(conf, ByName(cs), m) == Confidence(ByName(cs), m)
    ensures wanted == Included(local, cs, f, m)
    ensures item == FullItem(local, cs, f, m)
  {
    var seen := SeeChannels(local, cs, conf, f, m);
    SeeAllIs(local, cs, conf, f, m);
    item := Item(Get(local, f, m), seen.upstreams, seen.confidence);
    wanted := if item.current != Nil then seen.differs else seen.hasValue;
  }

  function Lookups(conf: map<string, map<string, bool>>, named: map<string, Data>, m: string): map<string, bool> {
    map n | n in named :: Trusted(conf, n, m)
  }

  lemma LookupsMore(conf: map<string, map<string, bool>>, named: map<string, Data>, c: Channel, m: string)
    ensures Lookups(conf, named[c.name := c.data], m) == Lookups(conf, named, m)[c.name := Trusted(conf, c.name, m)]
  {
  }

  lemma {:induction false} SeeAllIs(local: Data, cs: seq<Channel>, conf: map<string, map<string, bool>>, f: Field,
                                    m: string)
    ensures var seen := SeeAll(local, cs, conf, f, m);
      && seen.upstreams == Marks(local, ByName(cs), f, m) && seen.confidence == Lookups(conf, ByName(cs), m)
      && seen.hasValue == SomePresent(cs, f, m) && seen.differs == SomeDiffers(local, cs, f, m)
  {
    if cs != [] {
      var rest, c := cs[..|cs| - 1], cs[|cs| - 1];
      SeeAllIs(local, rest, conf, f, m);
      MarksMore(local, ByName(rest), c, f, m);
      LookupsMore(conf, ByName(rest), c, m);
    }
  }

  lemma MarksMore(local: Data, named: map<string, Data>, c: Channel, f: Field, m: string)
    ensures Marks(local, named[c.name := c.data], f, m) ==
      Marks(local, named, f, m)[c.name := Mark(local, c.data, f, m)]
  {
  }

  function ConfidenceTable(d: Data, models: set<string>): map<string, bool> {
    map m | m in models :: Confident(d, m)
  }

  /** The confidence map is complete before the first pass starts. */
  method Confidences(cs: seq<Channel>, models: set<string>) returns (conf: map<string, map<string, bool>>)
    ensures conf.Keys == ByName(cs).Keys
    ensures forall n | n in conf :: conf[n] == ConfidenceTable(ByName(cs)[n], models)
  {
    conf := map[];
    for i := 0 to |cs|
      invariant conf.Keys == ByName(cs[..i]).Keys
      invariant forall n | n in conf :: conf[n] == ConfidenceTable(ByName(cs[..i])[n], models)
    {
      var table := ConfidenceIn(cs[i].data, models);
      assert cs[..i + 1][..i] == cs[..i];
      conf := conf[cs[i].name := table];
    }
    assert cs[..|cs|] == cs;
  }

  lemma LookupsAre(conf: map<string, map<string, bool>>, named: map<string, Data>, models: set<string>, m: string)
    requires m in models && conf.Keys == named.Keys
    requires forall n | n in conf :: conf[n] == ConfidenceTable(named[n], models)
    ensures Lookups(conf, named, m) == Confidence(named, m)
  {
    forall n | n in named ensures Trusted(conf, n, m) == Confident(named[n], m) {
      assert n in conf && conf[n] == ConfidenceTable(named[n], models);
      assert conf[n][m] == ConfidenceTable(named[n], models)[m];
    }
  }

  /** The row is what the first pass lists for a model. */
  ghost predicate IsRow(row: map<Field, Item>, local: Data, cs: seq<Channel>, m: string) {
    && (forall f :: f in row <==> Included(local, cs, f, m))
    && (forall f | f in row :: row[f] == FullItem(local, cs, f, m))
  }

  /** The row of one model in the first listing, for the first `k` fields. */
  ghost predicate IsFirstRow(row: map<Field, Item>, k: nat, local: Data, cs: seq<Channel>, m: string)
    requires k <= |FIELDS|
  {
    && (forall f :: f in row <==> Included(local, cs, f, m) && exists j :: 0 <= j < k && FIELDS[j] == f)
    && (forall f | f in row :: row[f] == FullItem(local, cs, f, m))
  }

  method BuildRow(local: Data, cs: seq<Channel>, conf: map<string, map<string, bool>>, m: string)
    returns (row: map<Field, Item>)
    requires Lookups(conf, ByName(cs), m) == Confidence(ByName(cs), m)
    ensures IsRow(row, local, cs, m)
  {
    row := map[];
    for k := 0 to |FIELDS|
      invariant IsFirstRow(row, k, local, cs, m)
    {
      var wanted, item := BuildItem(local, cs, conf, FIELDS[k], m);
      if wanted {
        row := row[FIELDS[k] := item];
      }
    }
    forall f ensures f in row <==> Included(local, cs, f, m) {
      AllFields(f);
    }
  }

  /** The first listing: exactly the included pairs, each with its full item. */
  ghost predicate IsFirst(d: Listing, local: Data, cs: seq<Channel>) {
    && (forall m | m in d :: d[m] != map[])
    && (forall m, f :: Listed(d, f, m) <==> Included(local, cs, f, m))
    && (forall m, f | Listed(d, f, m) :: d[m][f] == FullItem(local, cs, f, m))
  }

  predicate Listed(d: Listing, f: Field, m: string) {
    m in d && f in d[m]
  }

  lemma IncludedIsMentioned(local: Data, cs: seq<Channel>, f: Field, m: string)
    requires Included(local, cs, f, m)
    ensures Mentioned(local, cs, m)
  {
    if Get(local, f, m) == Nil {
      SomePresentIff(cs, f, m);
    }
  }

  lemma {:induction false} SomePresentIff(cs: seq<Channel>, f: Field, m: string)
    ensures SomePresent(cs, f, m) <==> exists i :: 0 <= i < |cs| && Present(cs[i].data, f, m)
  {
    if cs != [] {
      var rest := cs[..|cs| - 1];
      SomePresentIff(rest, f, m);
      assert forall i | 0 <= i < |rest| :: rest[i] == cs[i];
    }
  }

  lemma {:induction false} SomeDiffersIff(local: Data, cs: seq<Channel>, f: Field, m: string)
    ensures SomeDiffers(local, cs, f, m) <==> exists i :: 0 <= i < |cs| && Differs(local, cs[i].data, f, m)
  {
    if cs != [] {
      var rest := cs[..|cs| - 1];
      SomeDiffersIff(local, rest, f, m);
      if i :| 0 <= i < |cs| && Differs(local, cs[i].data, f, m) {
        assert i < |rest| ==> Differs(local, rest[i].data, f, m);
      }
      if i :| 0 <= i < |rest| && Differs(local, rest[i].data, f, m) {
        assert Differs(local, cs[i].data, f, m);
      }
    }
  }

  /** The first listing of some models. */
  ghost predicate IsFirstFor(d: Listing, models: set<string>, local: Data, cs: seq<Channel>) {
    && (forall m | m in d :: m in models && d[m] != map[])
    && (forall m | m in models :: IsRow(if m in d then d[m] else map[], local, cs, m))
  }

  lemma FirstForAll(d: Listing, models: set<string>, local: Data, cs: seq<Channel>)
    requires IsFirstFor(d, models, local, cs) && forall m :: m in models <==> Mentioned(local, cs, m)
    ensures IsFirst(d, local, cs)
  {
    forall m, f ensures Listed(d, f, m) <==> Included(local, cs, f, m)
      ensures Listed(d, f, m) ==> d[m][f] == FullItem(local, cs, f, m)
    {
      if m in models {
        assert IsRow(if m in d then d[m] else map[], local, cs, m);
      } else if Included(local, cs, f, m) {
        IncludedIsMentioned(local, cs, f, m);
      }
    }
  }

  method FirstPass(local: Data, cs: seq<Channel>) returns (d: Listing)
    ensures IsFirst(d, local, cs)
  {
    var models := AllModels(local, cs);
    var conf := Confidences(cs, models);
    d := map[];
    var left := models;
    while left != {}
      invariant left <= models
      invariant IsFirstFor(d, models - left, local, cs)
    {
      var m :| m in left;
      LookupsAre(conf, ByName(cs), models, m);
      var row := BuildRow(local, cs, conf, m);
      if row != map[] {
        d := d[m := row];
      }
      left := left - {m};
    }
    FirstForAll(d, models, local, cs);
  }

  // ---------------------------------------------------------------- channels with a difference somewhere

  predicate TellsIn(item: Item, n: string) {
    n in item.upstreams && Telling(item.upstreams[n])
  }

  ghost predicate TellsInRow(row: map<Field, Item>, n: string) {
    exists f :: f in row && TellsIn(row[f], n)
  }

  ghost predicate TellsInListing(d: Listing, n: string) {
    exists m :: m in d && TellsInRow(d[m], n)
  }

  method TellingInRow(row: map<Field, Item>) returns (names: set<string>)
    ensures forall n :: n in names <==> TellsInRow(row, n)
  {
    names := {};
    var left := row.Keys;
    while left != {}
      invariant left <= row.Keys
      invariant forall n :: n in names <==> exists f :: f in row.Keys - left && TellsIn(row[f], n)
    {
      var f :| f in left;
      names := names + set n | n in row[f].upstreams && Telling(row[f].upstreams[n]);
      left := left - {f};
    }
  }

  method TellingNames(d: Listing) returns (names: set<string>)
    ensures forall n :: n in names <==> TellsInListing(d, n)
  {
    names := {};
    var left := d.Keys;
    while left != {}
      invariant left <= d.Keys
      invariant forall n :: n in names <==> exists m :: m in d.Keys - left && TellsInRow(d[m], n)
    {
      var m :| m in left;
      var more := TellingInRow(d[m]);
      names := names + more;
      left := left - {m};
    }
  }

  // ---------------------------------------------------------------- pruning

  method PruneItem(item: Item, names: set<string>) returns (pruned: Item, keep: bool)
    requires item.confidence.Keys == item.upstreams.Keys
    ensures pruned == Restrict(item, names)
    ensures keep == !AllSame(pruned)
  {
    var upstreams, confidence := item.upstreams, item.confidence;
    var left := item.upstreams.Keys;
    while left != {}
      invariant left <= item.upstreams.Keys
      invariant upstreams == map n | n in item.upstreams && (n in left || n in names) :: item.upstreams[n]
      invariant confidence == map n | n in item.confidence && (n in left || n in names) :: item.confidence[n]
    {
      var n :| n in left;
      if n !in names {
        upstreams := upstreams - {n};
        confidence := confidence - {n};
      }
      left := left - {n};
    }
    pruned := Item(item.current, upstreams, confidence);
    keep := exists n :: n in upstreams && upstreams[n] != SAME;
  }

  ghost predicate Prunable(row: map<Field, Item>) {
    forall f | f in row :: row[f].confidence.Keys == row[f].upstreams.Keys
  }

  function PrunedRow(row: map<Field, Item>, names: set<string>): map<Field, Item> {
    map f | f in row && !AllSame(Restrict(row[f], names)) :: Restrict(row[f], names)
  }

  method PruneRow(row: map<Field, Item>, names: set<string>) returns (pruned: map<Field, Item>)
    requires Prunable(row)
    ensures pruned == PrunedRow(row, names)
  {
    pruned := row;
    var left := row.Keys;
    while left != {}
      invariant left <= row.Keys
      invariant forall f :: f in pruned <==> f in row && (f in left || !AllSame(Restrict(row[f], names)))
      invariant forall f | f in pruned :: pruned[f] == if f in left then row[f] else Restrict(row[f], names)
    {
      var f :| f in left;
      var item, keep := PruneItem(row[f], names);
      if keep {
        pruned := pruned[f := item];
      } else {
        pruned := pruned - {f};
      }
      left := left - {f};
    }
  }

  /** Every row is pruned to the given names, and no empty row is left. */
  method Prune(d: Listing, names: set<string>) returns (r: Listing)
    requires forall m | m in d :: Prunable(d[m])
    ensures forall m :: m in r <==> m in d && PrunedRow(d[m], names) != map[]
    ensures forall m | m in r :: r[m] == PrunedRow(d[m], names)
  {
    r := d;
    var left := d.Keys;
    while left != {}
      invariant left <= d.Keys
      invariant forall m :: m in r <==> m in d && (m in left || PrunedRow(d[m], names) != map[])
      invariant forall m | m in r :: r[m] == if m in left then d[m] else PrunedRow(d[m], names)
    {
      var m :| m in left;
      var row := PruneRow(d[m], names);
      if row == map[] {
        r := r - {m};
      } else {
        r := r[m := row];
      }
      left := left - {m};
    }
  }

  // ---------------------------------------------------------------- the whole comparison

  ghost function NoisyNames(local: Data, cs: seq<Channel>): set<string> {
    set n | n in ByName(cs) && Noisy(local, cs, n)
  }

  /** The channels that tell a difference in the first listing are the noisy ones. */
  lemma TellingIsNoisy(d: Listing, local: Data, cs: seq<Channel>, n: string)
    requires IsFirst(d, local, cs)
    ensures TellsInListing(d, n) <==> Noisy(local, cs, n)
  {
    if TellsInListing(d, n) {
      var m :| m in d && TellsInRow(d[m], n);
      var f :| f in d[m] && TellsIn(d[m][f], n);
      assert Listed(d, f, m);
    }
    if Noisy(local, cs, n) {
      var m, f :| Included(local, cs, f, m) && Telling(Mark(local, ByName(cs)[n], f, m));
      assert Listed(d, f, m);
      assert TellsIn(d[m][f], n);
      assert TellsInRow(d[m], n);
    }
  }

  lemma KeptIff(local: Data, cs: seq<Channel>, f: Field, m: string)
    requires Included(local, cs, f, m)
    ensures Kept(local, cs, f, m) <==> !AllSame(Restrict(FullItem(local, cs, f, m), NoisyNames(local, cs)))
  {
    var item := Restrict(FullItem(local, cs, f, m), NoisyNames(local, cs));
    forall n ensures n in item.upstreams <==> n in ByName(cs) && Noisy(local, cs, n) {
    }
  }

  /** The result lists exactly the kept pairs, each with its item restricted to the noisy channels,
      and no model without a kept pair. */
  ghost predicate IsResult(r: Listing, local: Data, cs: seq<Channel>) {
    && (forall m | m in r :: r[m] != map[])
    && (forall m, f :: Listed(r, f, m) <==> Kept(local, cs, f, m))
    && (forall m, f | Listed(r, f, m) :: r[m][f] == Restrict(FullItem(local, cs, f, m), NoisyNames(local, cs)))
  }

  lemma TellingNamesAreNoisy(d: Listing, names: set<string>, local: Data, cs: seq<Channel>)
    requires IsFirst(d, local, cs) && forall n :: n in names <==> TellsInListing(d, n)
    ensures names == NoisyNames(local, cs)
  {
    forall n ensures n in names <==> n in NoisyNames(local, cs) {
      TellingIsNoisy(d, local, cs, n);
    }
  }

  lemma FirstIsPrunable(d: Listing, local: Data, cs: seq<Channel>)
    requires IsFirst(d, local, cs)
    ensures forall m | m in d :: Prunable(d[m])
  {
    forall m, f | m in d && f in d[m] ensures d[m][f].confidence.Keys == d[m][f].upstreams.Keys {
      assert Listed(d, f, m);
    }
  }

  /** Local tables hold numbers and texts only; comparing two structures would stop the program. */
  predicate LocalIsScalar(local: Data) {
    forall f, m | f in local && m in local[f] :: !local[f][m].Structure?
  }

  method BuildDifferences(local: Data, cs: seq<Channel>) returns (r: Listing)
    requires LocalIsScalar(local)
    ensures IsResult(r, local, cs)
  {
    var d := FirstPass(local, cs);
    var names := TellingNames(d);
    TellingNamesAreNoisy(d, names, local, cs);
    FirstIsPrunable(d, local, cs);
    r := Prune(d, names);
    PrunedIsResult(d, r, local, cs);
  }

  lemma PrunedIsResult(d: Listing, r: Listing, local: Data, cs: seq<Channel>)
    requires IsFirst(d, local, cs)
    requires forall m :: m in r <==> m in d && PrunedRow(d[m], NoisyNames(local, cs)) != map[]
    requires forall m | m in r :: r[m] == PrunedRow(d[m], NoisyNames(local, cs))
    ensures IsResult(r, local, cs)
  {
    var names := NoisyNames(local, cs);
    forall m, f ensures Listed(r, f, m) <==> Kept(local, cs, f, m)
      ensures Listed(r, f, m) ==> r[m][f] == Restrict(FullItem(local, cs, f, m), names)
    {
      if Included(local, cs, f, m) {
        KeptIff(local, cs, f, m);
        assert Listed(d, f, m);
        assert f in PrunedRow(d[m], names) <==> Kept(local, cs, f, m);
      } else {
        assert !Listed(d, f, m);
      }
    }
  }
}
