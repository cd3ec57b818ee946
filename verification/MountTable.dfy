/** The mount table as text: how the kernel writes it, and that the plugin reads from it
    exactly where something is mounted. */
module MountTable {
  import opened Options
  import opened Texts
  import opened Host

  predicate Word(s: string) {
    s != "" && forall i | 0 <= i < |s| :: !IsSpace(s[i])
  }

  // ---- the fields of a line ----

  lemma {:induction false} WordStops(a: string, c: char, b: string)
    requires IsSpace(c)
    ensures WordLength(a + [c] + b) == WordLength(a)
  {
    if a != "" && !IsSpace(a[0]) {
      assert (a + [c] + b)[1..] == a[1..] + [c] + b;
      WordStops(a[1..], c, b);
    }
  }

  /** White space between two texts separates their fields. With what follows, this says
      what the fields of any line are. */
  lemma {:induction false} FieldsConcat(a: string, c: char, b: string)
    requires IsSpace(c)
    ensures Fields(a + [c] + b) == Fields(a) + Fields(b)
    decreases |a|
  {
    var line := a + [c] + b;
    if a == "" {
      assert line[0] == c && line[1..] == b;
    } else if IsSpace(a[0]) {
      assert line[1..] == a[1..] + [c] + b;
      FieldsConcat(a[1..], c, b);
    } else {
      WordStops(a, c, b);
      var k := WordLength(a);
      assert line[..k] == a[..k] && line[k..] == a[k..] + [c] + b;
      FieldsConcat(a[k..], c, b);
    }
  }

  lemma {:induction false} WholeWord(w: string)
    requires forall i | 0 <= i < |w| :: !IsSpace(w[i])
    ensures WordLength(w) == |w|
  {
    if w != "" { WholeWord(w[1..]); }
  }

  /** A word is its own only field, and the empty text has none. */
  lemma FieldsOfWord(w: string)
    requires forall i | 0 <= i < |w| :: !IsSpace(w[i])
    ensures Fields(w) == if w == "" then [] else [w]
  {
    WholeWord(w);
    if w != "" { assert w[..|w|] == w && w[|w|..] == ""; }
  }

  // ---- one line ----

  /** A mount as the kernel lists it: device, target, and the rest of the line. */
  datatype Entry = Entry(device: string, target: string, rest: string)

  predicate Proper(e: Entry) {
    Word(e.device) && Word(e.target) && '\n' !in e.rest
  }

  function LineOf(e: Entry): string {
    e.device + " " + e.target + " " + e.rest
  }

  lemma LineFields(e: Entry)
    requires Proper(e)
    ensures Fields(LineOf(e)) == [e.device, e.target] + Fields(e.rest)
  {
    FieldsOfWord(e.device);
    FieldsOfWord(e.target);
    FieldsConcat(e.device, ' ', e.target + " " + e.rest);
    FieldsConcat(e.target, ' ', e.rest);
    assert LineOf(e) == e.device + [' '] + (e.target + " " + e.rest) && e.target + " " + e.rest == e.target + [' '] + e.rest;
  }

  lemma LineIsOne(e: Entry)
    requires Proper(e)
    ensures '\n' !in LineOf(e)
  {
    assert IsSpace('\n');
    assert forall c | c in LineOf(e) :: c in e.device || c == ' ' || c in e.target || c in e.rest;
  }

  lemma LineDecides(e: Entry, wanted: string)
    requires Proper(e)
    ensures MountsAt(LineOf(e), wanted) <==> Clean(e.target) == Clean(wanted)
  {
    LineFields(e);
  }

  // ---- the table ----

  /** The first line of a text decides for itself, the others as if it were not there. */
  lemma FirstLine(line: string, text: string, wanted: string)
    requires '\n' !in line
    ensures MountedIn(line, wanted) <==> MountsAt(line, wanted)
    ensures MountedIn(line + "\n" + text, wanted) <==> MountsAt(line, wanted) || MountedIn(text, wanted)
  {
    SplitNone(line, '\n');
    assert Split(line, '\n')[0] == line;
    SplitFirst(line, text, '\n');
    var all, lines := Split(line + "\n" + text, '\n'), Split(text, '\n');
    assert line + "\n" + text == line + ['\n'] + text && all == [line] + lines && all[0] == line;
    forall i | 0 <= i < |lines| && MountsAt(lines[i], wanted) ensures MountedIn(line + "\n" + text, wanted) {
      assert all[i + 1] == lines[i];
    }
    forall i | 1 <= i < |all| && MountsAt(all[i], wanted) ensures MountedIn(text, wanted) {
      assert all[i] == lines[i - 1];
    }
  }

  /** A table of one line shows the wanted target exactly if the line's target, the second
      of its three parts, is that target, both paths cleaned. */
  lemma OneLineDecides(device: string, target: string, rest: string, wanted: string)
    requires Word(device) && Word(target) && '\n' !in rest
    ensures MountedIn(device + " " + target + " " + rest, wanted) <==> Clean(target) == Clean(wanted)
  {
    var e := Entry(device, target, rest);
    LineIsOne(e);
    FirstLine(LineOf(e), "", wanted);
    LineDecides(e, wanted);
  }

  /** A line with less than two fields shows nothing. */
  lemma ShortLineShowsNothing(w: string, wanted: string)
    requires forall i | 0 <= i < |w| :: !IsSpace(w[i])
    ensures !MountedIn(w, wanted)
  {
    assert IsSpace('\n');
    FirstLine(w, "", wanted);
    FieldsOfWord(w);
  }

  predicate ProperTable(entries: seq<Entry>) {
    forall e | e in entries :: Proper(e)
  }

  /** The text of a table, each line complete. */
  function TextOf(entries: seq<Entry>): string {
    if entries == [] then "" else LineOf(entries[0]) + "\n" + TextOf(entries[1..])
  }

  /** Something is mounted at this target, says the table. */
  predicate Lists(entries: seq<Entry>, wanted: string) {
    exists e | e in entries :: Clean(e.target) == Clean(wanted)
  }

  lemma ListsNext(entries: seq<Entry>, wanted: string)
    requires entries != []
    ensures Lists(entries, wanted) <==> Clean(entries[0].target) == Clean(wanted) || Lists(entries[1..], wanted)
  {
    assert forall e :: e in entries <==> e == entries[0] || e in entries[1..];
  }

  /** The whole table: what the text shows mounted is what some line has as its target. */
  lemma {:induction false} TableDecides(entries: seq<Entry>, wanted: string)
    requires ProperTable(entries)
    ensures MountedIn(TextOf(entries), wanted) <==> Lists(entries, wanted)
  {
    if entries == [] {
      ShortLineShowsNothing("", wanted);
    } else {
      TableDecides(entries[1..], wanted);
      LineIsOne(entries[0]);
      LineDecides(entries[0], wanted);
      FirstLine(LineOf(entries[0]), TextOf(entries[1..]), wanted);
      ListsNext(entries, wanted);
    }
  }

  lemma TextDecides(text: string, wanted: string)
    ensures forall entries: seq<Entry> | ProperTable(entries) && text == TextOf(entries) ::
              MountedIn(text, wanted) <==> exists e | e in entries :: Clean(e.target) == Clean(wanted)
  {
    forall entries: seq<Entry> | ProperTable(entries) && text == TextOf(entries)
      ensures MountedIn(text, wanted) <==> exists e | e in entries :: Clean(e.target) == Clean(wanted)
    {
      TableDecides(entries, wanted);
    }
  }
}
