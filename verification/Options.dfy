/** The `--opt key=value` flags of `docker volume create`: parsing, validation,
    the labels sent to GCE, and the comparison behind the idempotent Create. */
module Options {
  import opened Names
  import opened Sorting

  datatype Result<+T> = Success(value: T) | Failure
  {
    function GetOr(default: T): T {
      if Success? then value else default
    }
  }

  datatype Option<+T> = None | Some(value: T)
  {
    function GetOr(default: T): T {
      if Some? then value else default
    }
  }

  const MANAGED_BY_KEY := "managed-by"
  const MANAGED_BY_VALUE := "docker-gcepd"
  const DELETING_KEY := "gcepd-deleting"
  const RETAIN := "retain"
  const DELETE := "delete"
  const MAX_INT64 := 0x7fff_ffff_ffff_ffff

  /** A Go `map[string]string`, which may be nil: nil reads like an empty map. */
  datatype GoMap = Nil | Made(m: map<string, string>)
  {
    function Entries(): map<string, string> {
      if Nil? then map[] else m
    }

    /** Indexing: a missing key reads as the empty string. */
    function Lookup(k: string): string {
      if k in Entries() then Entries()[k] else ""
    }
  }

  datatype DiskOptions = DiskOptions(
    sizeGb: int,
    diskType: string,
    fsType: string,
    labels: GoMap,
    sourceSnapshot: string,
    sourceImage: string,
    snapshotOnRemove: bool,
    reclaimPolicy: string)

  const DEFAULT_OPTIONS := DiskOptions(10, "pd-balanced", "ext4", Made(map[]), "", "", false, RETAIN)

  predicate KnownDiskType(t: string) {
    t == "pd-standard" || t == "pd-balanced" || t == "pd-ssd" || t == "pd-extreme"
  }

  predicate KnownFsType(t: string) {
    t == "ext4" || t == "xfs"
  }

  // ---- the text functions of the Go library that parsing relies on ----

  /** Lower-casing. Outside ASCII only the two characters that Unicode maps onto
      ASCII letters matter here: no option name contains any other. */
  function LowerChar(c: char): char {
    if 'A' <= c <= 'Z' then c - 'A' + 'a'
    else if c == '\U{0130}' then 'i'
    else if c == '\U{212A}' then 'k'
    else c
  }

  function Lower(s: string): string {
    seq(|s|, i requires 0 <= i < |s| => LowerChar(s[i]))
  }

  predicate IsSpace(c: char) {
    c in "\t\n\U{000B}\U{000C}\r \U{0085}\U{00A0}\U{1680}\U{2028}\U{2029}\U{202F}\U{205F}\U{3000}" ||
    '\U{2000}' <= c <= '\U{200A}'
  }

  function TrimLeft(s: string): string {
    if s != "" && IsSpace(s[0]) then TrimLeft(s[1..]) else s
  }

  function TrimRight(s: string): string {
    if s != "" && IsSpace(s[|s| - 1]) then TrimRight(s[..|s| - 1]) else s
  }

  function TrimSpace(s: string): string {
    TrimRight(TrimLeft(s))
  }

  /** Position of the first `c`, or |s|. */
  function IndexOf(s: string, c: char): (i: nat)
    ensures i <= |s|
    ensures i < |s| ==> s[i] == c
    ensures c !in s[..i]
  {
    if s == "" || s[0] == c then 0 else 1 + IndexOf(s[1..], c)
  }

  function Split(s: string, c: char): (parts: seq<string>)
    ensures |parts| > 0
    decreases |s|
  {
    var i := IndexOf(s, c);
    if i == |s| then [s] else [s[..i]] + Split(s[i + 1..], c)
  }

  /** `strconv.ParseInt(s, 10, 64)`: an optional sign, then digits, within range. */
  function ParseInt64(s: string): (r: Option<int>)
    ensures r.Some? ==> -MAX_INT64 - 1 <= r.value <= MAX_INT64
  {
    var d := Magnitude(if s != "" && (s[0] == '+' || s[0] == '-') then s[1..] else s);
    if d.None? then None
    else
      var n := if s[0] == '-' then -d.value else d.value;
      if -MAX_INT64 - 1 <= n <= MAX_INT64 then Some(n) else None
  }

  function Magnitude(digits: string): (d: Option<int>)
    ensures d.Some? ==> d.value >= 0
  {
    if digits == "" || exists i | 0 <= i < |digits| :: !IsDigit(digits[i]) then None else Some(Value(digits))
  }

  function ParseBool(s: string): Option<bool> {
    if s in ["1", "t", "T", "TRUE", "true", "True"] then Some(true)
    else if s in ["0", "f", "F", "FALSE", "false", "False"] then Some(false)
    else None
  }

  // ---- labels ----

  /** One `key=value` pair: the trimmed key and value, or failure. */
  function ParsePair(pair: string): Result<(string, string)> {
    var i := IndexOf(pair, '=');
    if i == |pair| || i == 0 then Failure
    else
      var key := TrimSpace(pair[..i]);
      if key == MANAGED_BY_KEY then Failure else Success((key, TrimSpace(pair[i + 1..])))
  }

  /** Pairs are read from left to right; a later one overrides an earlier one. */
  function ParsePairs(pairs: seq<string>): (r: Result<map<string, string>>)
    ensures r.Success? ==> MANAGED_BY_KEY !in r.value
  {
    if pairs == [] then Success(map[])
    else
      var front := ParsePairs(pairs[..|pairs| - 1]);
      var last := ParsePair(pairs[|pairs| - 1]);
      if front.Failure? || last.Failure? then Failure
      else Success(front.value[last.value.0 := last.value.1])
  }

  function LabelsOf(s: string): (r: Result<map<string, string>>)
    ensures r.Success? ==> MANAGED_BY_KEY !in r.value
  {
    if TrimSpace(s) == "" then Success(map[]) else ParsePairs(Split(s, ','))
  }

  /** A bad pair anywhere makes the whole list fail. */
  lemma {:induction false} BadPairSpoils(pairs: seq<string>, i: nat)
    requires i < |pairs| && ParsePair(pairs[i]).Failure?
    ensures ParsePairs(pairs).Failure?
  {
    if i < |pairs| - 1 {
      BadPairSpoils(pairs[..|pairs| - 1], i);
    }
  }

  method ParseLabels(s: string) returns (r: Result<map<string, string>>)
    ensures r == LabelsOf(s)
  {
    if TrimSpace(s) == "" {
      return Success(map[]);
    }
    var pairs := Split(s, ',');
    var out: map<string, string> := map[];
    for k := 0 to |pairs|
      invariant ParsePairs(pairs[..k]) == Success(out)
    {
      assert pairs[..k + 1][..k] == pairs[..k];
      var p := ParsePair(pairs[k]);
      if p.Failure? {
        BadPairSpoils(pairs, k);
        return Failure;
      }
      out := out[p.value.0 := p.value.1];
    }
    assert pairs[..|pairs|] == pairs;
    r := Success(out);
  }

  // ---- parsing the option map ----

  datatype Kind = Size | DiskType | FsType | Labels | SourceSnapshot | SourceImage
    | SnapshotOnRemove | ReclaimPolicy | Unknown

  const KINDS: map<string, Kind> := map[
    "size" := Size, "type" := DiskType, "fs" := FsType, "labels" := Labels,
    "sourcesnapshot" := SourceSnapshot, "sourceimage" := SourceImage,
    "snapshotonremove" := SnapshotOnRemove, "reclaimpolicy" := ReclaimPolicy]

  /** Keys are recognised after lower-casing. */
  function KindOf(k: string): Kind {
    if Lower(k) in KINDS then KINDS[Lower(k)] else Unknown
  }

  /** One round of the loop over the raw map: an option of this kind with value `v`. */
  function ApplyOption(opts: DiskOptions, kind: Kind, v: string): Result<DiskOptions> {
    match kind
    case Size =>
      var n := ParseInt64(v);
      if n.None? || n.value <= 0 then Failure else Success(opts.(sizeGb := n.value))
    case DiskType => if KnownDiskType(v) then Success(opts.(diskType := v)) else Failure
    case FsType => if KnownFsType(v) then Success(opts.(fsType := v)) else Failure
    case Labels =>
      var l := LabelsOf(v);
      if l.Failure? then Failure else Success(opts.(labels := Made(opts.labels.Entries() + l.value)))
    case SourceSnapshot => Success(opts.(sourceSnapshot := v))
    case SourceImage => Success(opts.(sourceImage := v))
    case SnapshotOnRemove =>
      var b := ParseBool(v);
      if b.None? then Failure else Success(opts.(snapshotOnRemove := b.value))
    case ReclaimPolicy =>
      var p := Lower(v);
      if p == RETAIN || p == DELETE then Success(opts.(reclaimPolicy := p)) else Failure
    case Unknown => Failure
  }

  /** The loop, for one visiting order of the keys. */
  function Fold(raw: map<string, string>, order: seq<string>): Result<DiskOptions>
    requires forall k | k in order :: k in raw
  {
    if order == [] then Success(DEFAULT_OPTIONS)
    else
      var k := order[|order| - 1];
      var r := Fold(raw, order[..|order| - 1]);
      if r.Failure? then Failure else ApplyOption(r.value, KindOf(k), raw[k])
  }

  /** The whole of `ParseDiskOptions`, for one visiting order of the keys. */
  function ParseInOrder(raw: map<string, string>, order: seq<string>): Result<DiskOptions>
    requires forall k | k in order :: k in raw
  {
    var r := Fold(raw, order);
    if r.Failure? || (r.value.sourceSnapshot != "" && r.value.sourceImage != "") then Failure else r
  }

  /** `order` lists exactly the keys visited so far, once each. */
  ghost predicate Visited(order: seq<string>, keys: set<string>) {
    Distinct(order) && forall k :: k in order <==> k in keys
  }

  /** An order in which a map iteration may visit the keys of `raw`. */
  ghost predicate VisitingOrder(raw: map<string, string>, order: seq<string>) {
    Visited(order, raw.Keys)
  }

  /** The loop stops at the first bad option; the rest cannot mend it. */
  lemma {:induction false} FoldFailureStays(raw: map<string, string>, front: seq<string>, rest: seq<string>)
    requires forall k | k in front + rest :: k in raw
    requires forall k | k in front :: k in raw
    requires Fold(raw, front).Failure?
    ensures Fold(raw, front + rest).Failure?
  {
    if rest == [] {
      assert front + rest == front;
    } else {
      var init := rest[..|rest| - 1];
      assert (front + rest)[..|front + rest| - 1] == front + init;
      FoldFailureStays(raw, front, init);
    }
  }

  ghost function SomeOrder(s: set<string>): (order: seq<string>)
    ensures Visited(order, s)
  {
    if s == {} then [] else
      var k :| k in s;
      [k] + SomeOrder(s - {k})
  }

  lemma VisitNext(order: seq<string>, keys: set<string>, k: string)
    requires Visited(order, keys) && k !in keys
    ensures Visited(order + [k], keys + {k}) && (order + [k])[..|order|] == order
  {
  }

  lemma VisitRest(order: seq<string>, keys: set<string>, rest: seq<string>, more: set<string>)
    requires Visited(order, keys) && Visited(rest, more) && keys !! more
    ensures Visited(order + rest, keys + more)
  {
    assert forall k :: k in order + rest <==> k in order || k in rest;
    forall i, j | 0 <= i < j < |order + rest| ensures (order + rest)[i] != (order + rest)[j] {
      if i < |order| <= j {
        assert (order + rest)[i] in keys && (order + rest)[j] in more;
      }
    }
  }

  /** Adds labels one by one; the new ones override. */
  method MergeLabels(into: map<string, string>, more: map<string, string>) returns (labels: map<string, string>)
    ensures labels == into + more
  {
    labels := into;
    var todo := more.Keys;
    while todo != {}
      invariant todo <= more.Keys
      invariant labels == into + map k | k in more.Keys - todo :: more[k]
      decreases todo
    {
      var k :| k in todo;
      labels := labels[k := more[k]];
      todo := todo - {k};
    }
  }

  /** One option; labels are parsed pair by pair and added one by one. */
  method ParseOption(opts: DiskOptions, kind: Kind, v: string) returns (r: Result<DiskOptions>)
    ensures r == ApplyOption(opts, kind, v)
  {
    if kind != Labels {
      return ApplyOption(opts, kind, v);
    }
    var parsed := ParseLabels(v);
    if parsed.Failure? {
      return Failure;
    }
    var labels := MergeLabels(opts.labels.Entries(), parsed.value);
    r := Success(opts.(labels := Made(labels)));
  }

  method ParseDiskOptions(raw: map<string, string>) returns (r: Result<DiskOptions>, ghost order: seq<string>)
    ensures VisitingOrder(raw, order) && r == ParseInOrder(raw, order)
    ensures r.Success? ==> ValidOptions(r.value)
    ensures raw == map[] ==> r == Success(DiskOptions(10, "pd-balanced", "ext4", Made(map[]), "", "", false, "retain"))
  {
    var opts := DEFAULT_OPTIONS;
    var todo := raw.Keys;
    order := [];
    while todo != {}
      invariant todo <= raw.Keys && Visited(order, raw.Keys - todo)
      invariant Fold(raw, order) == Success(opts)
      decreases todo
    {
      var k :| k in todo;
      VisitNext(order, raw.Keys - todo, k);
      ghost var front := order;
      todo, order := todo - {k}, order + [k];
      assert raw.Keys - todo == (raw.Keys - todo - {k}) + {k};
      var step := ParseOption(opts, KindOf(k), raw[k]);
      if step.Failure? {
        ghost var rest := SomeOrder(todo);
        VisitRest(order, raw.Keys - todo, rest, todo);
        assert raw.Keys == (raw.Keys - todo) + todo;
        FoldFailureStays(raw, order, rest);
        order := order + rest;
        return Failure, order;
      }
      opts := step.value;
    }
    assert raw.Keys - todo == raw.Keys;
    if opts.sourceSnapshot != "" && opts.sourceImage != "" {
      return Failure, order;
    }
    r := Success(opts);
    ParsedIsValid(raw, order);
  }

  /** What every parsed option record satisfies. */
  predicate ValidOptions(o: DiskOptions) {
    InRange(o) && !(o.sourceSnapshot != "" && o.sourceImage != "")
  }

  predicate InRange(o: DiskOptions) {
    && 1 <= o.sizeGb <= MAX_INT64
    && KnownDiskType(o.diskType)
    && KnownFsType(o.fsType)
    && o.labels.Made? && MANAGED_BY_KEY !in o.labels.m
    && (o.reclaimPolicy == RETAIN || o.reclaimPolicy == DELETE)
  }

  lemma {:induction false} FoldInRange(raw: map<string, string>, order: seq<string>)
    requires forall k | k in order :: k in raw
    ensures Fold(raw, order).Success? ==> InRange(Fold(raw, order).value)
  {
    if order != [] {
      FoldInRange(raw, order[..|order| - 1]);
    }
  }

  /** A successful parse satisfies every range constraint, in any visiting order. */
  lemma ParsedIsValid(raw: map<string, string>, order: seq<string>)
    requires forall k | k in order :: k in raw
    ensures ParseInOrder(raw, order).Success? ==> ValidOptions(ParseInOrder(raw, order).value)
  {
    FoldInRange(raw, order);
  }

  // ---- parsing does not depend on the map iteration order ----

  /** No option is given twice under keys that differ only in case. This is less
      than asking all keys to be distinct after lower-casing. */
  ghost predicate OneKeyPerOption(raw: map<string, string>) {
    forall k, k' | k in raw && k' in raw && KindOf(k) == KindOf(k') != Unknown :: k == k'
  }

  ghost predicate Gives(raw: map<string, string>, kind: Kind) {
    exists k :: k in raw && KindOf(k) == kind
  }

  ghost function Given(raw: map<string, string>, kind: Kind): string
    requires Gives(raw, kind)
  {
    var k :| k in raw && KindOf(k) == kind;
    raw[k]
  }

  /** The values given, by option and no longer by key. */
  ghost function ByKind(raw: map<string, string>): map<Kind, string> {
    map kind: Kind | kind != Unknown && Gives(raw, kind) :: Given(raw, kind)
  }

  /** The option is acceptable on its own. */
  predicate Acceptable(kind: Kind, v: string) {
    ApplyOption(DEFAULT_OPTIONS, kind, v).Success?
  }

  /** What a table of acceptable values means, with no reference to any order. */
  ghost function Meaning(g: map<Kind, string>): DiskOptions {
    DiskOptions(
      if Size in g then ParseInt64(g[Size]).GetOr(0) else DEFAULT_OPTIONS.sizeGb,
      if DiskType in g then g[DiskType] else DEFAULT_OPTIONS.diskType,
      if FsType in g then g[FsType] else DEFAULT_OPTIONS.fsType,
      Made(if Labels in g then LabelsOf(g[Labels]).GetOr(map[]) else map[]),
      if SourceSnapshot in g then g[SourceSnapshot] else "",
      if SourceImage in g then g[SourceImage] else "",
      if SnapshotOnRemove in g then ParseBool(g[SnapshotOnRemove]).GetOr(false) else false,
      if ReclaimPolicy in g then Lower(g[ReclaimPolicy]) else DEFAULT_OPTIONS.reclaimPolicy)
  }

  /** Adding one more option commutes with taking the meaning. */
  lemma MeaningAfterAdding(g: map<Kind, string>, kind: Kind, v: string)
    requires kind !in g
    ensures ApplyOption(Meaning(g), kind, v) ==
            if Acceptable(kind, v) then Success(Meaning(g[kind := v])) else Failure
  {
    if kind == Labels && Acceptable(kind, v) {
      assert map[] + LabelsOf(v).value == LabelsOf(v).value;
    }
  }

  lemma GivenAfterAdding(m: map<string, string>, k: string, v: string, kind: Kind)
    requires k !in m && OneKeyPerOption(m[k := v]) && kind != Unknown
    ensures KindOf(k) == kind ==> !Gives(m, kind) && Gives(m[k := v], kind) && Given(m[k := v], kind) == v
    ensures KindOf(k) != kind ==> (Gives(m[k := v], kind) <==> Gives(m, kind))
    ensures KindOf(k) != kind && Gives(m, kind) ==> Given(m[k := v], kind) == Given(m, kind)
  {
    var m' := m[k := v];
    assert k in m';
    assert forall j | j in m :: j in m' && m'[j] == m[j];
    assert forall j | j in m' :: j == k || j in m;
  }

  lemma ByKindAfterAdding(m: map<string, string>, k: string, v: string)
    requires k !in m && OneKeyPerOption(m[k := v]) && KindOf(k) != Unknown
    ensures KindOf(k) !in ByKind(m) && ByKind(m[k := v]) == ByKind(m)[KindOf(k) := v]
  {
    var a, b := ByKind(m[k := v]), ByKind(m)[KindOf(k) := v];
    forall kind: Kind
      ensures kind in a <==> kind in b
      ensures kind in a ==> a[kind] == b[kind]
    {
      if kind != Unknown { GivenAfterAdding(m, k, v, kind); }
    }
    GivenAfterAdding(m, k, v, KindOf(k));
  }

  function Restrict(raw: map<string, string>, keys: seq<string>): map<string, string> {
    map k | k in raw && k in keys :: raw[k]
  }

  lemma MeaningNext(raw: map<string, string>, front: seq<string>, order: seq<string>, k: string)
    requires order == front + [k] && k in raw && k !in front && OneKeyPerOption(raw) && KindOf(k) != Unknown
    ensures ApplyOption(Meaning(ByKind(Restrict(raw, front))), KindOf(k), raw[k]) ==
            if Acceptable(KindOf(k), raw[k]) then Success(Meaning(ByKind(Restrict(raw, order)))) else Failure
  {
    var m := Restrict(raw, front);
    assert forall j :: j in order <==> j in front || j == k;
    assert Restrict(raw, order) == m[k := raw[k]];
    ByKindAfterAdding(m, k, raw[k]);
    MeaningAfterAdding(ByKind(m), KindOf(k), raw[k]);
  }

  predicate AllAcceptable(raw: map<string, string>, keys: seq<string>)
    requires forall k | k in keys :: k in raw
  {
    forall k | k in keys :: Acceptable(KindOf(k), raw[k])
  }

  lemma AllAcceptableNext(raw: map<string, string>, front: seq<string>, order: seq<string>, k: string)
    requires order == front + [k] && forall j | j in order :: j in raw
    ensures (forall j | j in front :: j in raw) && k in raw
    ensures AllAcceptable(raw, order) <==> AllAcceptable(raw, front) && Acceptable(KindOf(k), raw[k])
  {
    assert forall j :: j in order <==> j in front || j == k;
  }

  /** What the loop comes to after these keys, with no reference to their order. */
  ghost function Sum(raw: map<string, string>, keys: seq<string>): Result<DiskOptions>
    requires forall k | k in keys :: k in raw
  {
    if AllAcceptable(raw, keys) then Success(Meaning(ByKind(Restrict(raw, keys)))) else Failure
  }

  lemma SumNext(raw: map<string, string>, front: seq<string>, order: seq<string>, k: string)
    requires order == front + [k] && (forall j | j in order :: j in raw) && k !in front && OneKeyPerOption(raw)
    ensures (forall j | j in front :: j in raw) && k in raw
    ensures var r := Sum(raw, front);
            Sum(raw, order) == if r.Failure? then Failure else ApplyOption(r.value, KindOf(k), raw[k])
  {
    AllAcceptableNext(raw, front, order, k);
    var kind, v := KindOf(k), raw[k];
    if kind == Unknown {
      assert !Acceptable(kind, v) && forall o :: ApplyOption(o, kind, v).Failure?;
    } else {
      MeaningNext(raw, front, order, k);
    }
  }

  lemma SplitLast(order: seq<string>)
    requires order != [] && Distinct(order)
    ensures var front, k := order[..|order| - 1], order[|order| - 1];
            order == front + [k] && k !in front && Distinct(front)
  {
  }

  lemma {:induction false} FoldMeaning(raw: map<string, string>, order: seq<string>)
    requires forall k | k in order :: k in raw
    requires Distinct(order)
    requires OneKeyPerOption(raw)
    ensures Fold(raw, order) == Sum(raw, order)
  {
    if order == [] {
      assert Restrict(raw, order) == map[];
      assert ByKind(map[]) == map[];
    } else {
      var front, k := order[..|order| - 1], order[|order| - 1];
      SplitLast(order);
      FoldMeaning(raw, front);
      SumNext(raw, front, order, k);
    }
  }

  /** Parsing, stated without any loop: every option is acceptable on its own and
      at most one source is given. With one key per option the result is that
      meaning, whichever way the map iteration runs. */
  lemma ParseIsDeterministic(raw: map<string, string>, order: seq<string>)
    requires VisitingOrder(raw, order) && OneKeyPerOption(raw)
    ensures var opts := Meaning(ByKind(raw));
            ParseInOrder(raw, order) ==
            if (forall k | k in raw :: Acceptable(KindOf(k), raw[k])) &&
               !(opts.sourceSnapshot != "" && opts.sourceImage != "")
            then Success(opts) else Failure
  {
    FoldMeaning(raw, order);
    assert Restrict(raw, order) == raw;
  }

  /** Otherwise the iteration order shows: `size` and `SIZE` compete. */
  lemma CollidingKeysAreOrderDependent()
    ensures var raw := map["size" := "1", "SIZE" := "2"];
            var o1, o2 := ["size", "SIZE"], ["SIZE", "size"];
            VisitingOrder(raw, o1) && VisitingOrder(raw, o2) && ParseInOrder(raw, o1) != ParseInOrder(raw, o2)
  {
    var raw := map["size" := "1", "SIZE" := "2"];
    var o1, o2 := ["size", "SIZE"], ["SIZE", "size"];
    assert Lower("size") == "size" == Lower("SIZE");
    assert Value("1") == 10 * Value("") + 1;
    assert Value("2") == 10 * Value("") + 2;
    assert ParseInt64("1") == Some(1) && ParseInt64("2") == Some(2);
    assert o1[..1] == ["size"] && o2[..1] == ["SIZE"] && o1[..1][..0] == [] && o2[..1][..0] == [];
    assert Fold(raw, []) == Success(DEFAULT_OPTIONS);
    assert Fold(raw, ["size"]) == Success(DEFAULT_OPTIONS.(sizeGb := 1));
    assert Fold(raw, ["SIZE"]) == Success(DEFAULT_OPTIONS.(sizeGb := 2));
    assert Fold(raw, o1) == Success(DEFAULT_OPTIONS.(sizeGb := 2));
    assert Fold(raw, o2) == Success(DEFAULT_OPTIONS.(sizeGb := 1));
  }

  // ---- the labels sent to GCE ----

  function EffectiveLabels(o: DiskOptions): map<string, string> {
    o.labels.Entries()[MANAGED_BY_KEY := MANAGED_BY_VALUE]
  }

  method BuildEffectiveLabels(o: DiskOptions) returns (labels: map<string, string>)
    ensures labels == EffectiveLabels(o)
  {
    labels := map[];
    var todo := o.labels.Entries().Keys;
    while todo != {}
      invariant todo <= o.labels.Entries().Keys
      invariant labels == map k | k in o.labels.Entries().Keys - todo :: o.labels.Entries()[k]
      decreases todo
    {
      var k :| k in todo;
      labels := labels[k := o.labels.Entries()[k]];
      todo := todo - {k};
    }
    labels := labels[MANAGED_BY_KEY := MANAGED_BY_VALUE];
  }

  predicate Managed(labels: map<string, string>) {
    MANAGED_BY_KEY in labels && labels[MANAGED_BY_KEY] == MANAGED_BY_VALUE
  }

  predicate Marked(labels: map<string, string>) {
    DELETING_KEY in labels && labels[DELETING_KEY] == "true"
  }

  /** For parsed options the managed-by label is one more label and hides none. */
  lemma EffectiveLabelsAddOne(o: DiskOptions)
    requires ValidOptions(o)
    ensures |EffectiveLabels(o)| == |o.labels.m| + 1
    ensures forall k | k in o.labels.m :: k in EffectiveLabels(o) && EffectiveLabels(o)[k] == o.labels.m[k]
    ensures "managed-by" in EffectiveLabels(o) && EffectiveLabels(o)["managed-by"] == "docker-gcepd"
    ensures Managed(EffectiveLabels(o)) && Marked(EffectiveLabels(o)) == Marked(o.labels.m)
  {
    assert EffectiveLabels(o).Keys == o.labels.m.Keys + {MANAGED_BY_KEY};
  }

  // ---- Matches ----

  predicate SameScalars(o: DiskOptions, p: DiskOptions) {
    && o.sizeGb == p.sizeGb && o.diskType == p.diskType && o.fsType == p.fsType
    && o.sourceSnapshot == p.sourceSnapshot && o.sourceImage == p.sourceImage
    && o.reclaimPolicy == p.reclaimPolicy
  }

  predicate Matches(o: DiskOptions, p: DiskOptions) {
    && SameScalars(o, p)
    && |o.labels.Entries()| == |p.labels.Entries()|
    && forall k | k in o.labels.Entries() :: p.labels.Lookup(k) == o.labels.Entries()[k]
  }

  method CheckMatches(o: DiskOptions, p: DiskOptions) returns (same: bool)
    ensures same == Matches(o, p)
  {
    if o.sizeGb != p.sizeGb || o.diskType != p.diskType || o.fsType != p.fsType {
      return false;
    }
    if o.sourceSnapshot != p.sourceSnapshot || o.sourceImage != p.sourceImage {
      return false;
    }
    if o.reclaimPolicy != p.reclaimPolicy {
      return false;
    }
    if |o.labels.Entries()| != |p.labels.Entries()| {
      return false;
    }
    var todo := o.labels.Entries().Keys;
    while todo != {}
      invariant todo <= o.labels.Entries().Keys
      invariant forall k | k in o.labels.Entries().Keys - todo :: p.labels.Lookup(k) == o.labels.Entries()[k]
      decreases todo
    {
      var k :| k in todo;
      if p.labels.Lookup(k) != o.labels.Entries()[k] {
        return false;
      }
      todo := todo - {k};
    }
    same := true;
  }

  lemma SubsetOfEqualSize<T>(a: set<T>, b: set<T>)
    requires a <= b && |a| == |b|
    ensures a == b
  {
    if x :| x in b && x !in a {
      assert |b - {x}| == |b| - 1;
      SubsetSize(a, b - {x});
    }
  }

  lemma {:induction false} SubsetSize<T>(a: set<T>, b: set<T>)
    requires a <= b
    ensures |a| <= |b|
  {
    if a != {} {
      var x :| x in a;
      SubsetSize(a - {x}, b - {x});
    }
  }

  /** Options that match differ at most in labels with an empty value: they carry
      the same labels exactly when every empty-valued label is present on the right. */
  lemma MatchesUpToEmptyLabels(o: DiskOptions, p: DiskOptions)
    requires Matches(o, p)
    ensures o.labels.Entries() == p.labels.Entries() <==>
            forall k | k in o.labels.Entries() && o.labels.Entries()[k] == "" :: k in p.labels.Entries()
  {
    var a, b := o.labels.Entries(), p.labels.Entries();
    if forall k | k in a && a[k] == "" :: k in b {
      forall k | k in a ensures k in b && b[k] == a[k] {
        assert p.labels.Lookup(k) == a[k];
      }
      SubsetOfEqualSize(a.Keys, b.Keys);
      assert a == b;
    }
  }

  predicate NoEmptyLabel(o: DiskOptions) {
    forall k | k in o.labels.Entries() :: o.labels.Entries()[k] != ""
  }

  /** On options without empty-valued labels, matching is equality of everything
      but SnapshotOnRemove, hence an equivalence. */
  lemma MatchesIsEquality(o: DiskOptions, p: DiskOptions)
    requires NoEmptyLabel(o)
    ensures Matches(o, p) <==>
            p == o.(labels := p.labels, snapshotOnRemove := p.snapshotOnRemove) && o.labels.Entries() == p.labels.Entries()
    ensures NoEmptyLabel(p) ==> (Matches(o, p) <==> Matches(p, o))
  {
    if Matches(o, p) { MatchesUpToEmptyLabels(o, p); }
    if NoEmptyLabel(p) && Matches(p, o) { MatchesUpToEmptyLabels(p, o); }
  }

  /** Exactly when matching is symmetric: of options that match, the second matches the
      first if and only if every label that only the second has is empty. */
  lemma SymmetricIff(o: DiskOptions, p: DiskOptions)
    requires Matches(o, p)
    ensures Matches(p, o) <==>
            forall k | k in p.labels.Entries() && k !in o.labels.Entries() :: p.labels.Entries()[k] == ""
  {
    var a, b := o.labels.Entries(), p.labels.Entries();
    forall k | k in b && k in a ensures o.labels.Lookup(k) == b[k] {
      assert p.labels.Lookup(k) == a[k];
    }
    if Matches(p, o) {
      forall k | k in b && k !in a ensures b[k] == "" { assert o.labels.Lookup(k) == b[k]; }
    }
  }

  /** So in general it is not symmetric. */
  lemma MatchesIsNotSymmetric()
    ensures exists o, p :: ValidOptions(o) && ValidOptions(p) && Matches(o, p) && !Matches(p, o)
  {
    var o := DEFAULT_OPTIONS.(labels := Made(map["a" := ""]));
    var p := DEFAULT_OPTIONS.(labels := Made(map["b" := "x"]));
    assert p.labels.Lookup("a") == "" == o.labels.Entries()["a"];
    assert "b" in p.labels.Entries() && o.labels.Lookup("b") != p.labels.Entries()["b"];
    assert ValidOptions(o) && ValidOptions(p) && Matches(o, p) && !Matches(p, o);
  }

  /** A record that carries the managed-by label, as every record imported from
      GCE does, matches no option list a user can give. */
  lemma ManagedRecordNeverMatches(o: DiskOptions, raw: map<string, string>, order: seq<string>)
    requires Managed(o.labels.Entries()) && VisitingOrder(raw, order)
    requires ParseInOrder(raw, order).Success?
    ensures !Matches(o, ParseInOrder(raw, order).value)
  {
    ParsedIsValid(raw, order);
    var p := ParseInOrder(raw, order).value;
    assert p.labels.Lookup(MANAGED_BY_KEY) == "" != o.labels.Entries()[MANAGED_BY_KEY];
  }
}
