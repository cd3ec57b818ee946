/** When the order in which a map iteration visits the options shows in the result. */
module Orders {
  import opened Options
  import opened Sorting

  // ---- one option, then another ----

  function Twice(o: DiskOptions, kind: Kind, v: string, kind': Kind, v': string): Result<DiskOptions> {
    var r := ApplyOption(o, kind, v);
    if r.Failure? then Failure else ApplyOption(r.value, kind', v')
  }

  /** The same option given twice, to different effect: which one comes last matters. */
  predicate Clash(kind: Kind, v: string, v': string) {
    Twice(DEFAULT_OPTIONS, kind, v, kind, v') != Twice(DEFAULT_OPTIONS, kind, v', kind, v)
  }

  lemma AcceptableAnywhere(o: DiskOptions, kind: Kind, v: string)
    ensures ApplyOption(o, kind, v).Success? <==> Acceptable(kind, v)
  {
  }

  lemma LabelsClashAnywhere(m: map<string, string>, l: map<string, string>, l': map<string, string>)
    ensures (m + l) + l' == (m + l') + l <==> (map[] + l) + l' == (map[] + l') + l
  {
    if (m + l) + l' == (m + l') + l {
      forall k | k in l && k in l' ensures l[k] == l'[k] {
        assert ((m + l) + l')[k] == l'[k] && ((m + l') + l)[k] == l[k];
      }
    }
    if (map[] + l) + l' == (map[] + l') + l {
      forall k | k in l && k in l' ensures l[k] == l'[k] {
        assert ((map[] + l) + l')[k] == l'[k] && ((map[] + l') + l)[k] == l[k];
      }
    }
  }

  lemma ScalarClashAnywhere(o: DiskOptions, kind: Kind, v: string, v': string)
    requires kind != Labels && Acceptable(kind, v) && Acceptable(kind, v')
    ensures Clash(kind, v, v') <==> Twice(o, kind, v, kind, v') != Twice(o, kind, v', kind, v)
  {
  }

  lemma TwoLabels(o: DiskOptions, v: string, v': string)
    requires Acceptable(Labels, v) && Acceptable(Labels, v')
    ensures Twice(o, Labels, v, Labels, v') ==
            Success(o.(labels := Made(o.labels.Entries() + LabelsOf(v).value + LabelsOf(v').value)))
  {
  }

  /** A clash does not depend on what has been parsed before. */
  lemma ClashAnywhere(o: DiskOptions, kind: Kind, v: string, v': string)
    requires Acceptable(kind, v) && Acceptable(kind, v')
    ensures Clash(kind, v, v') <==> Twice(o, kind, v, kind, v') != Twice(o, kind, v', kind, v)
  {
    if kind == Labels {
      TwoLabels(o, v, v');
      TwoLabels(o, v', v);
      TwoLabels(DEFAULT_OPTIONS, v, v');
      TwoLabels(DEFAULT_OPTIONS, v', v);
      LabelsClashAnywhere(o.labels.Entries(), LabelsOf(v).value, LabelsOf(v').value);
    } else {
      ScalarClashAnywhere(o, kind, v, v');
    }
  }

  /** Different options never interfere. */
  lemma OthersCommute(o: DiskOptions, kind: Kind, v: string, kind': Kind, v': string)
    requires Acceptable(kind, v) && Acceptable(kind', v') && kind != kind'
    ensures Twice(o, kind, v, kind', v') == Twice(o, kind', v', kind, v)
  {
  }

  // ---- no clash, no difference ----

  ghost predicate NoClash(raw: map<string, string>) {
    forall k, k' | k in raw && k' in raw && KindOf(k) == KindOf(k') :: !Clash(KindOf(k), raw[k], raw[k'])
  }

  lemma FoldNext(raw: map<string, string>, order: seq<string>, k: string)
    requires k in raw && forall j | j in order :: j in raw
    ensures forall j | j in order + [k] :: j in raw
    ensures Fold(raw, order + [k]) ==
            if Fold(raw, order).Failure? then Failure else ApplyOption(Fold(raw, order).value, KindOf(k), raw[k])
  {
    assert (order + [k])[..|order|] == order;
  }

  lemma {:induction false} FoldSucceeds(raw: map<string, string>, order: seq<string>)
    requires forall j | j in order :: j in raw
    ensures Fold(raw, order).Success? <==> AllAcceptable(raw, order)
  {
    if order != [] {
      var front, k := order[..|order| - 1], order[|order| - 1];
      assert order == front + [k];
      FoldSucceeds(raw, front);
      FoldNext(raw, front, k);
      AllAcceptableNext(raw, front, order, k);
      if Fold(raw, front).Success? { AcceptableAnywhere(Fold(raw, front).value, KindOf(k), raw[k]); }
    }
  }

  ghost predicate AllFine(raw: map<string, string>) {
    forall k | k in raw :: Acceptable(KindOf(k), raw[k])
  }

  ghost predicate Within(raw: map<string, string>, order: seq<string>) {
    forall k | k in order :: k in raw
  }

  lemma FoldTwo(raw: map<string, string>, order: seq<string>, k: string, k': string)
    requires AllFine(raw) && Within(raw, order) && k in raw && k' in raw
    ensures Within(raw, order + [k] + [k']) && Fold(raw, order).Success?
    ensures Fold(raw, order + [k] + [k']) == Twice(Fold(raw, order).value, KindOf(k), raw[k], KindOf(k'), raw[k'])
  {
    FoldSucceeds(raw, order);
    FoldNext(raw, order, k);
    FoldNext(raw, order + [k], k');
  }

  lemma SwapLast(raw: map<string, string>, order: seq<string>, k: string, k': string)
    requires AllFine(raw) && NoClash(raw) && Within(raw, order) && k in raw && k' in raw
    ensures Within(raw, order + [k] + [k']) && Within(raw, order + [k'] + [k])
    ensures Fold(raw, order + [k] + [k']) == Fold(raw, order + [k'] + [k])
  {
    FoldTwo(raw, order, k, k');
    FoldTwo(raw, order, k', k);
    var o := Fold(raw, order).value;
    if KindOf(k) == KindOf(k') {
      ClashAnywhere(o, KindOf(k), raw[k], raw[k']);
    } else {
      OthersCommute(o, KindOf(k), raw[k], KindOf(k'), raw[k']);
    }
  }

  lemma Regrouped(a: seq<string>, k: string, b: seq<string>)
    requires b != []
    ensures var c, x := b[..|b| - 1], b[|b| - 1];
            a + [k] + b == a + [k] + c + [x] && a + b + [k] == a + c + [x] + [k] &&
            forall j :: j in c ==> j in b
  {
  }

  lemma {:induction false} MoveToEnd(raw: map<string, string>, a: seq<string>, k: string, b: seq<string>)
    requires AllFine(raw) && NoClash(raw) && Within(raw, a) && k in raw && Within(raw, b)
    ensures Within(raw, a + [k] + b) && Within(raw, a + b + [k])
    ensures Fold(raw, a + [k] + b) == Fold(raw, a + b + [k])
    decreases |b|
  {
    if b == [] {
      assert a + [k] + b == a + b + [k];
    } else {
      var c, x := b[..|b| - 1], b[|b| - 1];
      MoveToEnd(raw, a, k, c);
      Regrouped(a, k, b);
      FoldNext(raw, a + [k] + c, x);
      FoldNext(raw, a + c + [k], x);
      SwapLast(raw, a + c, k, x);
    }
  }

  /** Where an element of the sequence without position i comes from. */
  function Past(x: int, i: int): int {
    if x < i then x else x + 1
  }

  lemma WithoutAt(order: seq<string>, i: nat)
    requires i < |order|
    ensures order == order[..i] + [order[i]] + order[i + 1..]
    ensures forall x | 0 <= x < |order| - 1 :: (order[..i] + order[i + 1..])[x] == order[Past(x, i)]
  {
  }

  lemma TakeOut(order: seq<string>, k: string) returns (a: seq<string>, b: seq<string>)
    requires Distinct(order) && k in order
    ensures order == a + [k] + b && Distinct(a + b) && k !in a + b
    ensures forall j :: j in order <==> j == k || j in a + b
  {
    var i :| 0 <= i < |order| && order[i] == k;
    a, b := order[..i], order[i + 1..];
    WithoutAt(order, i);
    StaysDistinct(order, a + b, i);
    InParts(a, b, k);
  }

  lemma StaysDistinct(order: seq<string>, rest: seq<string>, i: nat)
    requires Distinct(order) && i < |order| && |rest| == |order| - 1
    requires forall x | 0 <= x < |rest| :: rest[x] == order[Past(x, i)]
    ensures Distinct(rest) && order[i] !in rest
  {
    forall x | 0 <= x < |rest| ensures rest[x] != order[i] { assert Past(x, i) != i; }
    forall x, y | 0 <= x < y < |rest| ensures rest[x] != rest[y] { assert Past(x, i) < Past(y, i); }
  }

  lemma InParts(a: seq<string>, b: seq<string>, k: string)
    ensures forall j :: j in a + [k] + b <==> j == k || j in a + b
  {
  }

  /** Without a clash the loop comes to the same, whichever way it runs. */
  lemma {:induction false} SameKeysSameFold(raw: map<string, string>, o1: seq<string>, o2: seq<string>)
    requires AllFine(raw) && NoClash(raw) && Within(raw, o1) && Within(raw, o2)
    requires Distinct(o1) && Distinct(o2) && forall k :: k in o1 <==> k in o2
    ensures Fold(raw, o1) == Fold(raw, o2)
    decreases |o2|
  {
    if o2 == [] {
      if o1 != [] { HeadIn(o1); }
    } else {
      SplitLast(o2);
      var front, k := o2[..|o2| - 1], o2[|o2| - 1];
      var a, b := TakeOut(o1, k);
      MoveToEnd(raw, a, k, b);
      assert forall j :: j in o2 <==> j in front || j == k;
      SameKeysSameFold(raw, a + b, front);
      FoldNext(raw, a + b, k);
      FoldNext(raw, front, k);
    }
  }

  // ---- the two sources ----

  predicate IsSource(kind: Kind) {
    kind == SourceSnapshot || kind == SourceImage
  }

  function Other(kind: Kind): Kind
    requires IsSource(kind)
  {
    if kind == SourceSnapshot then SourceImage else SourceSnapshot
  }

  function SourceOf(o: DiskOptions, kind: Kind): string
    requires IsSource(kind)
  {
    if kind == SourceSnapshot then o.sourceSnapshot else o.sourceImage
  }

  /** Every value given for the option is non-empty, and at least one is given. */
  ghost predicate Forced(raw: map<string, string>, kind: Kind) {
    Gives(raw, kind) && forall k | k in raw && KindOf(k) == kind :: raw[k] != ""
  }

  lemma SourceNext(o: DiskOptions, kind: Kind, v: string, source: Kind)
    requires Acceptable(kind, v) && IsSource(source)
    ensures ApplyOption(o, kind, v).Success?
    ensures SourceOf(ApplyOption(o, kind, v).value, source) == if kind == source then v else SourceOf(o, source)
  {
  }

  /** A source is what the last key of its kind says, or empty without one. */
  lemma {:induction false} SourceComesFrom(raw: map<string, string>, order: seq<string>, kind: Kind)
    requires AllFine(raw) && Within(raw, order) && IsSource(kind)
    ensures Fold(raw, order).Success?
    ensures var s := SourceOf(Fold(raw, order).value, kind);
            if exists k | k in order :: KindOf(k) == kind
            then exists k | k in order :: KindOf(k) == kind && raw[k] == s
            else s == ""
  {
    FoldSucceeds(raw, order);
    if order != [] {
      var front, k := order[..|order| - 1], order[|order| - 1];
      assert order == front + [k];
      FoldNext(raw, front, k);
      SourceComesFrom(raw, front, kind);
      assert forall j :: j in order <==> j in front || j == k;
      SourceNext(Fold(raw, front).value, KindOf(k), raw[k], kind);
    }
  }

  lemma ForcedSource(raw: map<string, string>, order: seq<string>, kind: Kind)
    requires AllFine(raw) && VisitingOrder(raw, order) && IsSource(kind) && Forced(raw, kind)
    ensures Fold(raw, order).Success? && SourceOf(Fold(raw, order).value, kind) != ""
  {
    SourceComesFrom(raw, order, kind);
    var x :| x in raw && KindOf(x) == kind;
    assert x in order;
  }

  /** Both sources forced: every order fails. */
  lemma ForcedFails(raw: map<string, string>, order: seq<string>)
    requires AllFine(raw) && VisitingOrder(raw, order) && Forced(raw, SourceSnapshot) && Forced(raw, SourceImage)
    ensures ParseInOrder(raw, order).Failure?
  {
    ForcedSource(raw, order, SourceSnapshot);
    ForcedSource(raw, order, SourceImage);
  }

  // ---- a clash, and two orders that differ ----

  /** All other keys first, in some order, then these. */
  lemma OrderEndingIn(raw: map<string, string>, tail: seq<string>) returns (base: seq<string>)
    requires Within(raw, tail) && Distinct(tail)
    ensures Within(raw, base) && VisitingOrder(raw, base + tail)
    ensures forall k :: k in base <==> k in raw && k !in tail
  {
    var last := set k | k in tail;
    base := SomeOrder(raw.Keys - last);
    VisitRest(base, raw.Keys - last, tail, last);
    assert raw.Keys - last + last == raw.Keys;
  }

  lemma SwappedVisits(raw: map<string, string>, pre: seq<string>, k: string, k': string)
    requires VisitingOrder(raw, pre + [k] + [k'])
    ensures VisitingOrder(raw, pre + [k'] + [k])
  {
    var o1, o2 := pre + [k] + [k'], pre + [k'] + [k];
    forall i, j | 0 <= i < j < |o2| ensures o2[i] != o2[j] {
      var i' := if i == |pre| then |pre| + 1 else if i == |pre| + 1 then |pre| else i;
      var j' := if j == |pre| then |pre| + 1 else if j == |pre| + 1 then |pre| else j;
      assert o2[i] == o1[i'] && o2[j] == o1[j'] && i' != j';
    }
    assert forall j :: j in o2 <==> j in pre || j == k || j == k';
    assert forall j :: j in o1 <==> j in pre || j == k || j == k';
  }

  /** The order shows in the result. */
  ghost predicate OrderShows(raw: map<string, string>) {
    exists o1, o2 :: VisitingOrder(raw, o1) && VisitingOrder(raw, o2) && ParseInOrder(raw, o1) != ParseInOrder(raw, o2)
  }

  /** A source that is not forced can be left empty before the last keys. */
  lemma LeavesEmpty(raw: map<string, string>, tail: seq<string>, free: Kind) returns (pre: seq<string>)
    requires AllFine(raw) && Within(raw, tail) && Distinct(tail) && IsSource(free) && !Forced(raw, free)
    requires forall k | k in tail :: KindOf(k) != free
    ensures Within(raw, pre) && VisitingOrder(raw, pre + tail)
    ensures Fold(raw, pre).Success? && SourceOf(Fold(raw, pre).value, free) == ""
  {
    if Gives(raw, free) {
      var p :| p in raw && KindOf(p) == free && raw[p] == "";
      var base := OrderEndingIn(raw, [p] + tail);
      pre := base + [p];
      assert base + ([p] + tail) == pre + tail;
      FoldSucceeds(raw, base);
      FoldNext(raw, base, p);
    } else {
      pre := OrderEndingIn(raw, tail);
      SourceComesFrom(raw, pre, free);
    }
  }

  lemma Shows(raw: map<string, string>, o1: seq<string>, o2: seq<string>)
    requires VisitingOrder(raw, o1) && VisitingOrder(raw, o2) && ParseInOrder(raw, o1) != ParseInOrder(raw, o2)
    ensures OrderShows(raw)
  {
  }

  lemma FreeParses(raw: map<string, string>, order: seq<string>, free: Kind)
    requires Within(raw, order) && IsSource(free)
    requires Fold(raw, order).Success? && SourceOf(Fold(raw, order).value, free) == ""
    ensures ParseInOrder(raw, order) == Fold(raw, order)
  {
  }

  /** A clash of options that leaves a source free shows. */
  lemma ClashShows(raw: map<string, string>, k: string, k': string, free: Kind)
    requires AllFine(raw) && k in raw && k' in raw && KindOf(k) == KindOf(k') && Clash(KindOf(k), raw[k], raw[k'])
    requires IsSource(free) && free != KindOf(k) && !Forced(raw, free)
    ensures OrderShows(raw)
  {
    SelfDoesNotClash(KindOf(k), raw[k]);
    var pre := LeavesEmpty(raw, [k, k'], free);
    assert pre + [k, k'] == pre + [k] + [k'];
    SwappedVisits(raw, pre, k, k');
    ClashParses(raw, pre, k, k', free);
    ClashParses(raw, pre, k', k, free);
    ClashAnywhere(Fold(raw, pre).value, KindOf(k), raw[k], raw[k']);
    Shows(raw, pre + [k] + [k'], pre + [k'] + [k]);
  }

  lemma SelfDoesNotClash(kind: Kind, v: string)
    ensures !Clash(kind, v, v)
  {
  }

  lemma ClashParses(raw: map<string, string>, pre: seq<string>, k: string, k': string, free: Kind)
    requires AllFine(raw) && Within(raw, pre) && k in raw && k' in raw && KindOf(k) == KindOf(k')
    requires IsSource(free) && free != KindOf(k) && Fold(raw, pre).Success? && SourceOf(Fold(raw, pre).value, free) == ""
    ensures Within(raw, pre + [k] + [k'])
    ensures ParseInOrder(raw, pre + [k] + [k']) == Twice(Fold(raw, pre).value, KindOf(k), raw[k], KindOf(k'), raw[k'])
  {
    FoldTwo(raw, pre, k, k');
    StaysEmpty(Fold(raw, pre).value, KindOf(k), raw[k], raw[k'], free);
    FreeParses(raw, pre + [k] + [k'], free);
  }

  lemma StaysEmpty(o: DiskOptions, kind: Kind, v: string, v': string, free: Kind)
    requires Acceptable(kind, v) && Acceptable(kind, v') && IsSource(free) && free != kind && SourceOf(o, free) == ""
    ensures Twice(o, kind, v, kind, v').Success? && SourceOf(Twice(o, kind, v, kind, v').value, free) == ""
  {
  }

  /** The last key decides its source. */
  lemma EndsInSource(raw: map<string, string>, order: seq<string>, k: string)
    requires AllFine(raw) && Within(raw, order) && k in raw && IsSource(KindOf(k))
    ensures Within(raw, order + [k]) && Fold(raw, order + [k]).Success?
    ensures SourceOf(Fold(raw, order + [k]).value, KindOf(k)) == raw[k]
  {
    FoldSucceeds(raw, order);
    FoldNext(raw, order, k);
  }

  /** Ending in an empty value parses, ending in another does not. */
  lemma EndingsDiffer(raw: map<string, string>, base: seq<string>, q: string, s: string)
    requires AllFine(raw) && Within(raw, base) && q in raw && s in raw && KindOf(q) == KindOf(s) && IsSource(KindOf(q))
    requires raw[q] != "" && raw[s] == "" && Forced(raw, Other(KindOf(q))) && VisitingOrder(raw, base + [q] + [s])
    ensures OrderShows(raw)
  {
    var o1, o2 := base + [q] + [s], base + [s] + [q];
    SwappedVisits(raw, base, q, s);
    EndsInSource(raw, base + [q], s);
    FreeParses(raw, o1, KindOf(s));
    EndsInSource(raw, base + [s], q);
    ForcedSource(raw, o2, Other(KindOf(q)));
    BothFail(raw, o2, KindOf(q));
    Shows(raw, o1, o2);
  }

  lemma BothFail(raw: map<string, string>, order: seq<string>, kind: Kind)
    requires Within(raw, order) && IsSource(kind) && Fold(raw, order).Success?
    requires SourceOf(Fold(raw, order).value, kind) != "" && SourceOf(Fold(raw, order).value, Other(kind)) != ""
    ensures ParseInOrder(raw, order).Failure?
  {
  }

  /** A clash within a source shows when the other source is forced. */
  lemma SourceClashShows(raw: map<string, string>, k: string, k': string)
    requires AllFine(raw) && k in raw && k' in raw && KindOf(k) == KindOf(k') && IsSource(KindOf(k))
    requires raw[k] != raw[k'] && !Forced(raw, KindOf(k)) && Forced(raw, Other(KindOf(k)))
    ensures OrderShows(raw)
  {
    assert Gives(raw, KindOf(k));
    var s :| s in raw && KindOf(s) == KindOf(k) && raw[s] == "";
    var q := if raw[k] != "" then k else k';
    assert q != s;
    var base := OrderEndingIn(raw, [q, s]);
    assert base + [q, s] == base + [q] + [s];
    EndingsDiffer(raw, base, q, s);
  }

  lemma SourceClash(kind: Kind, v: string, v': string)
    requires IsSource(kind)
    ensures Clash(kind, v, v') <==> v != v'
  {
  }

  /** Exactly when the visiting order shows: every option is acceptable on its own, some
      option is given twice to different effect, and the two sources do not make every
      order fail. */
  ghost predicate Ambiguous(raw: map<string, string>) {
    AllFine(raw) && !NoClash(raw) && !(Forced(raw, SourceSnapshot) && Forced(raw, SourceImage))
  }

  lemma OrderShowsIffAmbiguous(raw: map<string, string>)
    ensures OrderShows(raw) <==> Ambiguous(raw)
  {
    if Ambiguous(raw) {
      var k, k' :| k in raw && k' in raw && KindOf(k) == KindOf(k') && Clash(KindOf(k), raw[k], raw[k']);
      AmbiguousShows(raw, k, k');
    } else {
      forall o1, o2 | VisitingOrder(raw, o1) && VisitingOrder(raw, o2)
        ensures ParseInOrder(raw, o1) == ParseInOrder(raw, o2)
      {
        PlainAgrees(raw, o1, o2);
      }
    }
  }

  lemma AmbiguousShows(raw: map<string, string>, k: string, k': string)
    requires Ambiguous(raw)
    requires k in raw && k' in raw && KindOf(k) == KindOf(k') && Clash(KindOf(k), raw[k], raw[k'])
    ensures OrderShows(raw)
  {
    var kind := KindOf(k);
    if !Forced(raw, SourceSnapshot) && kind != SourceSnapshot {
      ClashShows(raw, k, k', SourceSnapshot);
    } else if !Forced(raw, SourceImage) && kind != SourceImage {
      ClashShows(raw, k, k', SourceImage);
    } else {
      SourceClash(kind, raw[k], raw[k']);
      SourceClashShows(raw, k, k');
    }
  }

  lemma PlainAgrees(raw: map<string, string>, o1: seq<string>, o2: seq<string>)
    requires !Ambiguous(raw) && VisitingOrder(raw, o1) && VisitingOrder(raw, o2)
    ensures ParseInOrder(raw, o1) == ParseInOrder(raw, o2)
  {
    if !AllFine(raw) {
      FoldSucceeds(raw, o1);
      FoldSucceeds(raw, o2);
    } else if NoClash(raw) {
      SameKeysSameFold(raw, o1, o2);
    } else {
      ForcedFails(raw, o1);
      ForcedFails(raw, o2);
    }
  }
}
