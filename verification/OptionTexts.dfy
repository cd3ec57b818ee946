/** What the option map says, told by the text of its keys and values: which values an
    option may have, what it is when it is not given, and that it is what its key says. */
module OptionTexts {
  import opened Options
  import opened Names
  import opened Texts
  import opened Sorting

  // ---- what one option may say ----

  predicate Digits(s: string) {
    s != "" && forall i | 0 <= i < |s| :: '0' <= s[i] <= '9'
  }

  /** A positive 64-bit number in decimal, perhaps with a plus sign. */
  predicate SizeText(v: string, n: int) {
    var digits := if v != "" && v[0] == '+' then v[1..] else v;
    Digits(digits) && n == Value(digits) && 1 <= n <= 9_223_372_036_854_775_807
  }

  predicate TrueText(v: string) {
    v in ["1", "t", "T", "TRUE", "true", "True"]
  }

  predicate FalseText(v: string) {
    v in ["0", "f", "F", "FALSE", "false", "False"]
  }

  /** The value is one that the option of this name takes. */
  ghost predicate Legal(name: string, v: string) {
    if name == "size" then exists n :: SizeText(v, n)
    else if name == "type" then v in ["pd-standard", "pd-balanced", "pd-ssd", "pd-extreme"]
    else if name == "fs" then v in ["ext4", "xfs"]
    else if name == "labels" then LabelsOf(v).Success?
    else if name == "sourcesnapshot" || name == "sourceimage" then true
    else if name == "snapshotonremove" then TrueText(v) || FalseText(v)
    else if name == "reclaimpolicy" then Lower(v) == "retain" || Lower(v) == "delete"
    else false
  }

  /** The option says this. */
  predicate Says(o: DiskOptions, name: string, v: string) {
    if name == "size" then SizeText(v, o.sizeGb)
    else if name == "type" then o.diskType == v
    else if name == "fs" then o.fsType == v
    else if name == "sourcesnapshot" then o.sourceSnapshot == v
    else if name == "sourceimage" then o.sourceImage == v
    else if name == "snapshotonremove" then if o.snapshotOnRemove then TrueText(v) else FalseText(v)
    else if name == "reclaimpolicy" then o.reclaimPolicy == Lower(v)
    else true
  }

  /** The option is what it is when nobody gives it. */
  predicate Defaulted(o: DiskOptions, name: string) {
    if name == "size" then o.sizeGb == 10
    else if name == "type" then o.diskType == "pd-balanced"
    else if name == "fs" then o.fsType == "ext4"
    else if name == "sourcesnapshot" then o.sourceSnapshot == ""
    else if name == "sourceimage" then o.sourceImage == ""
    else if name == "snapshotonremove" then !o.snapshotOnRemove
    else if name == "reclaimpolicy" then o.reclaimPolicy == "retain"
    else true
  }

  predicate Stands(o: DiskOptions, name: string, given: Option<string>) {
    if given.Some? then Says(o, name, given.value) else Defaulted(o, name)
  }

  /** These fields agree, except perhaps the one of this name. */
  predicate SameBut(a: DiskOptions, b: DiskOptions, name: string) {
    && (name == "size" || a.sizeGb == b.sizeGb)
    && (name == "type" || a.diskType == b.diskType)
    && (name == "fs" || a.fsType == b.fsType)
    && (name == "labels" || a.labels == b.labels)
    && (name == "sourcesnapshot" || a.sourceSnapshot == b.sourceSnapshot)
    && (name == "sourceimage" || a.sourceImage == b.sourceImage)
    && (name == "snapshotonremove" || a.snapshotOnRemove == b.snapshotOnRemove)
    && (name == "reclaimpolicy" || a.reclaimPolicy == b.reclaimPolicy)
  }

  // ---- the loop, one option at a time ----

  lemma PlainSize(digits: string, v: string)
    requires v != "" ==> v[0] != '-'
    requires digits == if v != "" && v[0] == '+' then v[1..] else v
    ensures var n := ParseInt64(v);
            (n.Some? && n.value > 0 <==> exists n :: SizeText(v, n)) && (n.Some? && n.value > 0 ==> SizeText(v, n.value))
  {
    if Digits(digits) {
      var d := Value(digits);
      assert SizeText(v, d) <==> 1 <= d <= MAX_INT64;
    }
  }

  lemma SizeByText(v: string)
    ensures var n := ParseInt64(v);
            (n.Some? && n.value > 0 <==> exists n :: SizeText(v, n)) && (n.Some? && n.value > 0 ==> SizeText(v, n.value))
  {
    if v != "" && v[0] == '-' {
      assert !Digits(v) by { assert v[0] < '0'; }
    } else {
      PlainSize(if v != "" && v[0] == '+' then v[1..] else v, v);
    }
  }

  lemma KindByName(k: string)
    ensures KindOf(k) ==
            if Lower(k) == "size" then Size
            else if Lower(k) == "type" then DiskType
            else if Lower(k) == "fs" then FsType
            else if Lower(k) == "labels" then Labels
            else if Lower(k) == "sourcesnapshot" then SourceSnapshot
            else if Lower(k) == "sourceimage" then SourceImage
            else if Lower(k) == "snapshotonremove" then SnapshotOnRemove
            else if Lower(k) == "reclaimpolicy" then ReclaimPolicy
            else Unknown
  {
  }

  lemma OptionSays(was: DiskOptions, k: string, v: string)
    ensures var r := ApplyOption(was, KindOf(k), v);
            && (r.Success? <==> Legal(Lower(k), v))
            && (r.Success? ==> Says(r.value, Lower(k), v) && SameBut(r.value, was, Lower(k)))
            && (r.Success? && Lower(k) == "labels" ==> r.value.labels == Made(was.labels.Entries() + LabelsOf(v).value))
  {
    KindByName(k);
    if Lower(k) == "size" { SizeByText(v); }
  }

  // ---- the whole map ----

  /** The value under the last key of this spelling, in any capitals. */
  function LastGiven(raw: map<string, string>, order: seq<string>, name: string): Option<string>
    requires forall k | k in order :: k in raw
  {
    if order == [] then None
    else if Lower(order[|order| - 1]) == name then Some(raw[order[|order| - 1]])
    else LastGiven(raw, order[..|order| - 1], name)
  }

  /** The labels of all label options, a later one overriding. */
  function AllLabels(raw: map<string, string>, order: seq<string>): map<string, string>
    requires forall k | k in order :: k in raw
  {
    if order == [] then map[]
    else
      var k, front := order[|order| - 1], AllLabels(raw, order[..|order| - 1]);
      if Lower(k) == "labels" then front + LabelsOf(raw[k]).GetOr(map[]) else front
  }

  ghost predicate AllLegal(raw: map<string, string>, order: seq<string>)
    requires forall k | k in order :: k in raw
  {
    forall k | k in order :: Legal(Lower(k), raw[k])
  }

  /** The record is what the options visited so far say. */
  predicate Tells(raw: map<string, string>, order: seq<string>, o: DiskOptions)
    requires forall k | k in order :: k in raw
  {
    && Stands(o, "size", LastGiven(raw, order, "size"))
    && Stands(o, "type", LastGiven(raw, order, "type"))
    && Stands(o, "fs", LastGiven(raw, order, "fs"))
    && Stands(o, "sourcesnapshot", LastGiven(raw, order, "sourcesnapshot"))
    && Stands(o, "sourceimage", LastGiven(raw, order, "sourceimage"))
    && Stands(o, "snapshotonremove", LastGiven(raw, order, "snapshotonremove"))
    && Stands(o, "reclaimpolicy", LastGiven(raw, order, "reclaimpolicy"))
    && o.labels == Made(AllLabels(raw, order))
  }

  lemma StandsNext(was: DiskOptions, now: DiskOptions, name: string, spelled: string, given: Option<string>, v: string)
    requires Stands(was, name, given) && SameBut(now, was, spelled) && Says(now, spelled, v)
    ensures Stands(now, name, if spelled == name then Some(v) else given)
  {
  }

  lemma {:induction false} FoldTells(raw: map<string, string>, order: seq<string>)
    requires forall k | k in order :: k in raw
    ensures Fold(raw, order).Success? <==> AllLegal(raw, order)
    ensures Fold(raw, order).Success? ==> Tells(raw, order, Fold(raw, order).value)
  {
    if order != [] {
      var front, k := order[..|order| - 1], order[|order| - 1];
      FoldTells(raw, front);
      assert forall j :: j in order <==> j in front || j == k;
      if Fold(raw, front).Success? { NextTells(raw, front, order, k, Fold(raw, front).value); }
    }
  }

  lemma NextTells(raw: map<string, string>, front: seq<string>, order: seq<string>, k: string, was: DiskOptions)
    requires order != [] && order[..|order| - 1] == front && order[|order| - 1] == k
    requires (forall j | j in order :: j in raw) && (forall j | j in front :: j in raw) && Tells(raw, front, was)
    ensures var r := ApplyOption(was, KindOf(k), raw[k]);
            (r.Success? <==> Legal(Lower(k), raw[k])) && (r.Success? ==> Tells(raw, order, r.value))
  {
    OptionSays(was, k, raw[k]);
    var r := ApplyOption(was, KindOf(k), raw[k]);
    if r.Success? {
      StandsNext(was, r.value, "size", Lower(k), LastGiven(raw, front, "size"), raw[k]);
      StandsNext(was, r.value, "type", Lower(k), LastGiven(raw, front, "type"), raw[k]);
      StandsNext(was, r.value, "fs", Lower(k), LastGiven(raw, front, "fs"), raw[k]);
      StandsNext(was, r.value, "sourcesnapshot", Lower(k), LastGiven(raw, front, "sourcesnapshot"), raw[k]);
      StandsNext(was, r.value, "sourceimage", Lower(k), LastGiven(raw, front, "sourceimage"), raw[k]);
      StandsNext(was, r.value, "snapshotonremove", Lower(k), LastGiven(raw, front, "snapshotonremove"), raw[k]);
      StandsNext(was, r.value, "reclaimpolicy", Lower(k), LastGiven(raw, front, "reclaimpolicy"), raw[k]);
    }
  }

  /** Parsing, told by the text of keys and values: for every map and every visiting order
      it succeeds if and only if every key is the name of an option, in any capitals, with
      a value that this option takes, and not both sources are given; and then the record
      says what was given last of each option, and the default of every other one. */
  lemma ParseTells(raw: map<string, string>, order: seq<string>)
    requires VisitingOrder(raw, order)
    ensures var snapshot, image := LastGiven(raw, order, "sourcesnapshot"), LastGiven(raw, order, "sourceimage");
            ParseInOrder(raw, order).Success? <==>
              (forall k | k in raw :: Legal(Lower(k), raw[k])) && !(snapshot.GetOr("") != "" && image.GetOr("") != "")
    ensures ParseInOrder(raw, order).Success? ==> Tells(raw, order, ParseInOrder(raw, order).value)
  {
    FoldTells(raw, order);
    assert AllLegal(raw, order) <==> forall k | k in raw :: Legal(Lower(k), raw[k]);
  }

  // ---- options not given, and options given once ----

  predicate NotGiven(raw: map<string, string>, name: string) {
    forall k | k in raw :: Lower(k) != name
  }

  predicate GivenOnce(raw: map<string, string>, k: string) {
    k in raw && forall j | j in raw && Lower(j) == Lower(k) :: j == k
  }

  lemma {:induction false} NothingGiven(raw: map<string, string>, order: seq<string>, name: string)
    requires (forall k | k in order :: k in raw) && forall k | k in order :: Lower(k) != name
    ensures LastGiven(raw, order, name) == None && (name == "labels" ==> AllLabels(raw, order) == map[])
  {
    if order != [] { NothingGiven(raw, order[..|order| - 1], name); }
  }

  lemma {:induction false} OneGiven(raw: map<string, string>, order: seq<string>, k: string)
    requires (forall j | j in order :: j in raw) && Distinct(order) && k in order
    requires forall j | j in order && Lower(j) == Lower(k) :: j == k
    ensures LastGiven(raw, order, Lower(k)) == Some(raw[k])
    ensures Lower(k) == "labels" && LabelsOf(raw[k]).Success? ==> AllLabels(raw, order) == LabelsOf(raw[k]).value
  {
    var front, last := order[..|order| - 1], order[|order| - 1];
    SplitLast(order);
    if last == k {
      NothingGiven(raw, front, Lower(k));
    } else {
      OneGiven(raw, front, k);
    }
  }

  lemma Unmentioned(raw: map<string, string>, order: seq<string>, name: string)
    requires VisitingOrder(raw, order)
    ensures NotGiven(raw, name) ==> LastGiven(raw, order, name) == None && (name == "labels" ==> AllLabels(raw, order) == map[])
  {
    if NotGiven(raw, name) { NothingGiven(raw, order, name); }
  }

  /** An option that no key gives has its default: 10 GiB, pd-balanced, ext4, no labels, no
      sources, no snapshot on removal, retained. */
  lemma DefaultsWhenNotGiven(raw: map<string, string>, order: seq<string>)
    requires VisitingOrder(raw, order) && ParseInOrder(raw, order).Success?
    ensures var o := ParseInOrder(raw, order).value;
            && (NotGiven(raw, "size") ==> o.sizeGb == 10)
            && (NotGiven(raw, "type") ==> o.diskType == "pd-balanced")
            && (NotGiven(raw, "fs") ==> o.fsType == "ext4")
            && (NotGiven(raw, "labels") ==> o.labels == Made(map[]))
            && (NotGiven(raw, "sourcesnapshot") ==> o.sourceSnapshot == "")
            && (NotGiven(raw, "sourceimage") ==> o.sourceImage == "")
            && (NotGiven(raw, "snapshotonremove") ==> !o.snapshotOnRemove)
            && (NotGiven(raw, "reclaimpolicy") ==> o.reclaimPolicy == "retain")
  {
    ParseTells(raw, order);
    Unmentioned(raw, order, "size");
    Unmentioned(raw, order, "type");
    Unmentioned(raw, order, "fs");
    Unmentioned(raw, order, "labels");
    Unmentioned(raw, order, "sourcesnapshot");
    Unmentioned(raw, order, "sourceimage");
    Unmentioned(raw, order, "snapshotonremove");
    Unmentioned(raw, order, "reclaimpolicy");
  }

  /** An option given once is what its own key says. */
  lemma ValueOfItsKey(raw: map<string, string>, order: seq<string>, k: string)
    requires VisitingOrder(raw, order) && ParseInOrder(raw, order).Success? && GivenOnce(raw, k)
    ensures var o, v := ParseInOrder(raw, order).value, raw[k];
            && (Lower(k) == "size" ==> SizeText(v, o.sizeGb))
            && (Lower(k) == "type" ==> o.diskType == v)
            && (Lower(k) == "fs" ==> o.fsType == v)
            && (Lower(k) == "labels" ==> LabelsOf(v) == Success(o.labels.Entries()))
            && (Lower(k) == "sourcesnapshot" ==> o.sourceSnapshot == v)
            && (Lower(k) == "sourceimage" ==> o.sourceImage == v)
            && (Lower(k) == "snapshotonremove" ==> if o.snapshotOnRemove then TrueText(v) else FalseText(v))
            && (Lower(k) == "reclaimpolicy" ==> o.reclaimPolicy == Lower(v))
  {
    ParseTells(raw, order);
    OneGiven(raw, order, k);
  }

  // ---- the texts themselves ----

  /** Lower-casing, by code point. */
  lemma LowerByCode(s: string)
    ensures |Lower(s)| == |s|
    ensures forall i | 0 <= i < |s| ::
              var c, l := s[i] as int, Lower(s)[i] as int;
              l == if 65 <= c <= 90 then c + 32 else if c == 0x130 then 105 else if c == 0x212A then 107 else c
  {
  }

  /** One pair of a label list. */
  lemma PairText(k: string, v: string)
    requires '=' !in k
    ensures ParsePair(k + "=" + v) ==
            if k == "" || TrimSpace(k) == "managed-by" then Failure else Success((TrimSpace(k), TrimSpace(v)))
    ensures ParsePair(k).Failure?
  {
    FirstAt(k, v, '=');
    NotThere(k, '=');
    assert k + "=" + v == k + ['='] + v;
    assert (k + "=" + v)[..|k|] == k && (k + "=" + v)[|k| + 1..] == v;
  }

  predicate ProperPairs(pairs: seq<(string, string)>) {
    forall p | p in pairs :: '=' !in p.0 && ',' !in p.0 && ',' !in p.1
  }

  function PairTexts(pairs: seq<(string, string)>): (texts: seq<string>)
    ensures |texts| == |pairs| && forall i | 0 <= i < |pairs| :: texts[i] == pairs[i].0 + "=" + pairs[i].1
  {
    seq(|pairs|, i requires 0 <= i < |pairs| => pairs[i].0 + "=" + pairs[i].1)
  }

  /** Trimmed keys and values, a later pair overriding an earlier one. */
  function PairLabels(pairs: seq<(string, string)>): map<string, string> {
    if pairs == [] then map[]
    else
      var p := pairs[|pairs| - 1];
      PairLabels(pairs[..|pairs| - 1])[TrimSpace(p.0) := TrimSpace(p.1)]
  }

  /** An empty key, or the reserved one. */
  predicate Spoiled(pairs: seq<(string, string)>) {
    exists p | p in pairs :: p.0 == "" || TrimSpace(p.0) == "managed-by"
  }

  lemma {:induction false} PairsRead(pairs: seq<(string, string)>)
    requires ProperPairs(pairs)
    ensures ParsePairs(PairTexts(pairs)) == if Spoiled(pairs) then Failure else Success(PairLabels(pairs))
  {
    if pairs != [] {
      var front, p := pairs[..|pairs| - 1], pairs[|pairs| - 1];
      PairsRead(front);
      PairText(p.0, p.1);
      assert PairTexts(pairs)[..|pairs| - 1] == PairTexts(front);
      assert Spoiled(pairs) <==> Spoiled(front) || p.0 == "" || TrimSpace(p.0) == "managed-by" by {
        assert forall q :: q in pairs <==> q in front || q == p;
      }
    }
  }

  /** A label list k=v,k=v,... is read as its pairs, trimmed; an empty key or the reserved
      one spoils it; and one of white space alone is empty. */
  lemma LabelListRead(pairs: seq<(string, string)>)
    requires pairs != [] && ProperPairs(pairs)
    ensures LabelsOf(Joined(PairTexts(pairs), ',')) == if Spoiled(pairs) then Failure else Success(PairLabels(pairs))
  {
    var texts := PairTexts(pairs);
    forall t | t in texts ensures ',' !in t {
      var i :| 0 <= i < |texts| && texts[i] == t;
      assert pairs[i] in pairs;
    }
    SplitJoined(texts, ',');
    PairsRead(pairs);
    NotBlank(Joined(texts, ','), '=') by { assert '=' in texts[0]; JoinedHas(texts, ',', '='); }
  }

  lemma {:induction false} JoinedHas(parts: seq<string>, c: char, x: char)
    requires parts != [] && x in parts[0]
    ensures x in Joined(parts, c)
  {
    if |parts| > 1 { JoinedHas(parts[..|parts| - 1], c, x); }
  }

  lemma NotBlank(s: string, x: char)
    requires x in s && !IsSpace(x)
    ensures TrimSpace(s) != ""
  {
    var i, j := TrimmedBothEnds(s);
    var k :| 0 <= k < |s| && s[k] == x;
  }

  lemma BlankListIsEmpty(s: string)
    requires forall i | 0 <= i < |s| :: IsSpace(s[i])
    ensures LabelsOf(s) == Success(map[])
  {
    TrimIsUnique(s, 0, 0);
  }
}
