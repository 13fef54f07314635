/** The CTAN adapter: the texlive.tlpdb text is cut into entries, each entry's lines are
    parsed into a record of fields, and process_data picks the fields of every package
    entry with their fallbacks. */
module CtanDb {
  import opened Wrappers
  import opened Strings
  import opened Values
  import opened PackageDb
  import opened Descriptions

  // ---------------------------------------------------------------------------------
  // Entry selection: itertools.groupby(lines, bool), then the "category Package" runs

  /** How many non-empty lines open the sequence. */
  function LeadLen(lines: seq<string>): (n: nat)
    ensures n <= |lines|
    ensures forall i :: 0 <= i < n ==> lines[i] != ""
    ensures n < |lines| ==> lines[n] == ""
    decreases |lines|
  {
    if |lines| == 0 || lines[0] == "" then 0 else 1 + LeadLen(lines[1..])
  }

  /** The maximal runs of non-empty lines, in order. */
  function Runs(lines: seq<string>): seq<seq<string>>
    decreases |lines|
  {
    if |lines| == 0 then []
    else if lines[0] == "" then Runs(lines[1..])
    else
      var n := LeadLen(lines);
      [lines[..n]] + Runs(lines[n..])
  }

  /** Every run is a non-empty block of non-empty lines. */
  lemma {:induction false} RunsNonEmpty(lines: seq<string>)
    ensures forall k :: 0 <= k < |Runs(lines)| ==>
      |Runs(lines)[k]| > 0 && forall j :: 0 <= j < |Runs(lines)[k]| ==> Runs(lines)[k][j] != ""
    decreases |lines|
  {
    if |lines| > 0 {
      if lines[0] == "" {
        RunsNonEmpty(lines[1..]);
      } else {
        var n := LeadLen(lines);
        RunsNonEmpty(lines[n..]);
        assert Runs(lines) == [lines[..n]] + Runs(lines[n..]);
      }
    }
  }

  /** The lines with the empty ones removed. */
  function NonEmptyLines(lines: seq<string>): seq<string>
    decreases |lines|
  {
    if |lines| == 0 then []
    else (if lines[0] == "" then [] else [lines[0]]) + NonEmptyLines(lines[1..])
  }

  function Flatten(runs: seq<seq<string>>): seq<string>
    decreases |runs|
  {
    if |runs| == 0 then [] else runs[0] + Flatten(runs[1..])
  }

  lemma {:induction false} NonEmptyLinesConcat(a: seq<string>, b: seq<string>)
    ensures NonEmptyLines(a + b) == NonEmptyLines(a) + NonEmptyLines(b)
    decreases |a|
  {
    if |a| == 0 {
      assert a + b == b;
    } else {
      assert (a + b)[0] == a[0] && (a + b)[1..] == a[1..] + b;
      NonEmptyLinesConcat(a[1..], b);
    }
  }

  lemma {:induction false} NonEmptyLinesOfBlock(a: seq<string>)
    requires forall i :: 0 <= i < |a| ==> a[i] != ""
    ensures NonEmptyLines(a) == a
    decreases |a|
  {
    if |a| > 0 {
      NonEmptyLinesOfBlock(a[1..]);
      assert a == [a[0]] + a[1..];
    }
  }

  /** The runs hold exactly the non-empty lines, in their order. */
  lemma {:induction false} RunsFlatten(lines: seq<string>)
    ensures Flatten(Runs(lines)) == NonEmptyLines(lines)
    decreases |lines|
  {
    if |lines| > 0 {
      if lines[0] == "" {
        RunsFlatten(lines[1..]);
      } else {
        var n := LeadLen(lines);
        RunsFlatten(lines[n..]);
        assert lines == lines[..n] + lines[n..];
        NonEmptyLinesConcat(lines[..n], lines[n..]);
        NonEmptyLinesOfBlock(lines[..n]);
        var r := Runs(lines);
        assert r == [lines[..n]] + Runs(lines[n..]);
        assert r[1..] == Runs(lines[n..]);
      }
    }
  }

  lemma {:induction false} LeadLenBeforeBlank(a: seq<string>, b: seq<string>)
    ensures LeadLen(a + [""] + b) == LeadLen(a)
    decreases |a|
  {
    var s := a + [""] + b;
    if |a| == 0 {
      assert s[0] == "";
    } else {
      assert s[0] == a[0] && s[1..] == a[1..] + [""] + b;
      LeadLenBeforeBlank(a[1..], b);
    }
  }

  /** An empty line separates: the runs of a text cut at a blank line are the runs of
      the part before it followed by those of the part after it. */
  lemma {:induction false} RunsSeparated(a: seq<string>, b: seq<string>)
    ensures Runs(a + [""] + b) == Runs(a) + Runs(b)
    decreases |a|
  {
    var s := a + [""] + b;
    if |a| == 0 {
      assert s[0] == "" && s[1..] == b;
    } else if a[0] == "" {
      assert s[0] == "" && s[1..] == a[1..] + [""] + b;
      RunsSeparated(a[1..], b);
    } else {
      RunsSeparated(a[LeadLen(a)..], b);
      RunsSeparatedBlock(a, b);
    }
  }

  /** The step of RunsSeparated for a text that opens with a non-empty line. */
  lemma RunsSeparatedBlock(a: seq<string>, b: seq<string>)
    requires |a| > 0 && a[0] != ""
    requires Runs(a[LeadLen(a)..] + [""] + b) == Runs(a[LeadLen(a)..]) + Runs(b)
    ensures Runs(a + [""] + b) == Runs(a) + Runs(b)
  {
    var s := a + [""] + b;
    var n := LeadLen(a);
    LeadLenBeforeBlank(a, b);
    SeparatedSlices(a, b, n);
    RunsOpening(s);
    var x, y := Runs(a[n..]), Runs(b);
    assert [a[..n]] + (x + y) == [a[..n]] + x + y;
  }

  lemma SeparatedSlices(a: seq<string>, b: seq<string>, n: nat)
    requires n <= |a|
    ensures (a + [""] + b)[..n] == a[..n] && (a + [""] + b)[n..] == a[n..] + [""] + b
  {
  }

  lemma RunsOpening(s: seq<string>)
    requires |s| > 0 && s[0] != ""
    ensures Runs(s) == [s[..LeadLen(s)]] + Runs(s[LeadLen(s)..])
  {
  }

  /** A block without empty lines is a single run. */
  lemma RunOfBlock(a: seq<string>)
    requires |a| > 0 && forall i :: 0 <= i < |a| ==> a[i] != ""
    ensures Runs(a) == [a]
  {
    assert LeadLen(a) == |a|;
    assert a[..|a|] == a && a[|a|..] == [];
  }

  const PackageCategory := "category Package"

  /** [entry for entry in runs if entry[1] == "category Package"]: a run of one line
      has no second line, which raises IndexError. */
  function PackageEntries(runs: seq<seq<string>>): (r: Result<seq<seq<string>>>)
    ensures r.Ok? <==> forall k :: 0 <= k < |runs| ==> |runs[k]| >= 2
    ensures r.Err? ==> r.error == IndexError
    decreases |runs|
  {
    if |runs| == 0 then Ok([])
    else if |runs[0]| < 2 then Err(IndexError)
    else
      var rest :- PackageEntries(runs[1..]);
      Ok((if runs[0][1] == PackageCategory then [runs[0]] else []) + rest)
  }

  /** The selected runs are exactly the runs whose second line is "category Package". */
  lemma {:induction false} PackageEntriesMembers(runs: seq<seq<string>>)
    requires PackageEntries(runs).Ok?
    ensures forall e :: e in PackageEntries(runs).value ==> e in runs && |e| >= 2 && e[1] == PackageCategory
    ensures forall e :: e in runs && |e| >= 2 && e[1] == PackageCategory ==> e in PackageEntries(runs).value
    decreases |runs|
  {
    if |runs| > 0 {
      PackageEntriesMembers(runs[1..]);
      assert runs == [runs[0]] + runs[1..];
      var head := if runs[0][1] == PackageCategory then [runs[0]] else [];
      assert PackageEntries(runs).value == head + PackageEntries(runs[1..]).value;
    }
  }

  /** The selection keeps the order of the runs. */
  lemma {:induction false} PackageEntriesConcat(a: seq<seq<string>>, b: seq<seq<string>>)
    requires PackageEntries(a).Ok? && PackageEntries(b).Ok?
    ensures PackageEntries(a + b) == Ok(PackageEntries(a).value + PackageEntries(b).value)
    decreases |a|
  {
    if |a| == 0 {
      assert a + b == b;
      assert [] + PackageEntries(b).value == PackageEntries(b).value;
    } else {
      assert (a + b)[0] == a[0] && (a + b)[1..] == a[1..] + b;
      PackageEntriesConcat(a[1..], b);
      var head := if a[0][1] == PackageCategory then [a[0]] else [];
      var x, y := PackageEntries(a[1..]).value, PackageEntries(b).value;
      assert PackageEntries(a).value == head + x;
      SeqAssoc(head, x, y);
    }
  }

  /** The entries of a tlpdb text. */
  function Entries(text: string): Result<seq<seq<string>>>
  {
    PackageEntries(Runs(Split(text, '\n')))
  }

  // ---------------------------------------------------------------------------------
  // Parsing the lines of one entry

  /** A field of a parsed entry: a text, the list of "depend" values, or a files record
      (its key=value attributes and the list of file lines). */
  datatype Field = Text(s: string) | Deps(items: seq<string>) | Files(attrs: map<string, string>, files: seq<string>)

  type Entry = map<string, Field>

  /** res_entry with previous_key and current_key. */
  datatype ParseState = ParseState(entry: Entry, previousKey: string, currentKey: string)

  const Initial := ParseState(map[], "", "")

  /** A line split at its spaces, as line.split(" "). */
  type Words = seq<string>

  function WordsOf(line: string): (w: Words)
    ensures |w| >= 1
  {
    Split(line, ' ')
  }

  /** The key of a line: what comes before its first space. */
  function Key(w: Words): string
  {
    if |w| == 0 then "" else w[0]
  }

  /** The words after the key. */
  function Rest(w: Words): seq<string>
  {
    if |w| == 0 then [] else w[1..]
  }

  /** The value of a line: the rest after the first space, as " ".join(line[1:]). */
  function Value(w: Words): string
  {
    Join(Rest(w), " ")
  }

  /** A line with its key and value put back together. */
  lemma KeyValueRoundTrip(line: string)
    requires |WordsOf(line)| >= 2
    ensures Key(WordsOf(line)) + " " + Value(WordsOf(line)) == line
  {
    var parts := WordsOf(line);
    JoinSplit(line, ' ');
    assert parts == [parts[0]] + parts[1..];
  }

  predicate IsFilesKey(key: string)
  {
    EndsWith(key, "files")
  }

  /** A key that is stored as text: not empty, not "depend", not a files key. */
  predicate IsTextKey(key: string)
  {
    key != "" && key != "depend" && !IsFilesKey(key)
  }

  /** key, val = item.split("="): exactly one '=' is needed. */
  function Pair(item: string): (r: Result<(string, string)>)
    ensures r.Ok? <==> |Split(item, '=')| == 2
    ensures r.Err? ==> r.error == ValueError
    ensures r.Ok? ==> r.value.0 + "=" + r.value.1 == item
  {
    var pieces := Split(item, '=');
    JoinSplit(item, '=');
    if |pieces| != 2 then Err(ValueError) else Ok((pieces[0], pieces[1]))
  }

  /** The key=value items of a files line, in order, a later key replacing an earlier. */
  function Attributes(items: seq<string>): (r: Result<map<string, string>>)
    ensures r.Err? ==> r.error == ValueError
    decreases |items|
  {
    if |items| == 0 then Ok(map[])
    else
      var earlier :- Attributes(items[..|items| - 1]);
      var pair :- Pair(items[|items| - 1]);
      Ok(earlier[pair.0 := pair.1])
  }

  /** The items are accepted exactly when every one of them is key=value. */
  lemma {:induction false} AttributesOk(items: seq<string>)
    ensures Attributes(items).Ok? <==> forall i :: 0 <= i < |items| ==> Pair(items[i]).Ok?
    decreases |items|
  {
    if |items| > 0 {
      var init := items[..|items| - 1];
      assert forall i :: 0 <= i < |init| ==> init[i] == items[i];
      AttributesOk(init);
    }
  }

  /** The attributes hold the key of every item, each with the value of the last item
      that carries it. */
  lemma {:induction false} AttributesLastWins(items: seq<string>, i: nat)
    requires (forall k :: 0 <= k < |items| ==> Pair(items[k]).Ok?) && i < |items|
    ensures Attributes(items).Ok?
    ensures Pair(items[i]).value.0 in Attributes(items).value
    ensures (forall j :: i < j < |items| ==> Pair(items[j]).value.0 != Pair(items[i]).value.0) ==>
      Attributes(items).value[Pair(items[i]).value.0] == Pair(items[i]).value.1
    decreases |items|
  {
    AttributesOk(items);
    var init := items[..|items| - 1];
    if i < |items| - 1 {
      assert init[i] == items[i];
      assert forall j :: 0 <= j < |init| ==> init[j] == items[j];
      AttributesLastWins(init, i);
    }
  }

  /** One line of an entry, as the body of the loop over the lines. */
  function Step(st: ParseState, line: Words): (r: Result<ParseState>)
  {
    StepOn(st, Key(line), Rest(line))
  }

  /** One line, given its key and the words after it. */
  function StepOn(st: ParseState, key: string, items: seq<string>): (r: Result<ParseState>)
  {
    var value := Join(items, " ");
    if IsFilesKey(key) then
      var attrs :- Attributes(items);
      Ok(st.(entry := st.entry[key := Files(attrs - {"files"}, [])], currentKey := key))
    else if key == "" then
      if st.currentKey !in st.entry then Err(KeyError)
      else
        match st.entry[st.currentKey]
        case Files(attrs, files) => Ok(st.(entry := st.entry[st.currentKey := Files(attrs, files + [value])]))
        case _ => Err(TypeError)
    else if key == "depend" then
      if "depend" !in st.entry then Ok(st.(entry := st.entry["depend" := Deps([value])]))
      else
        match st.entry["depend"]
        case Deps(items) => Ok(st.(entry := st.entry["depend" := Deps(items + [value])]))
        case _ => Err(AttributeError)
    else if st.previousKey == key then
      if key !in st.entry then Err(KeyError)
      else
        match st.entry[key]
        case Text(t) => Ok(st.(entry := st.entry[key := Text(t + " " + value)]))
        case _ => Err(TypeError)
    else
      Ok(ParseState(st.entry[key := Text(value)], key, ""))
  }

  /** The lines in order; the first that fails stops the parse. */
  function Run(st: ParseState, lines: seq<Words>): Result<ParseState>
    decreases |lines|
  {
    if |lines| == 0 then Ok(st)
    else
      var next :- Step(st, lines[0]);
      Run(next, lines[1..])
  }

  /** The shape the parse keeps: files keys hold files records, "depend" holds the list,
      every other key a text; current_key names a files record when set, and
      previous_key a text when set. */
  predicate WellKeyed(st: ParseState)
  {
    (forall k :: k in st.entry ==> k != "") &&
    (forall k :: k in st.entry && IsFilesKey(k) ==> st.entry[k].Files?) &&
    ("depend" in st.entry ==> st.entry["depend"].Deps?) &&
    (forall k :: k in st.entry && IsTextKey(k) ==> st.entry[k].Text?) &&
    (st.currentKey != "" ==> st.currentKey in st.entry && IsFilesKey(st.currentKey)) &&
    (st.previousKey != "" ==> st.previousKey in st.entry && IsTextKey(st.previousKey))
  }

  lemma DependIsNotFilesKey()
    ensures !IsFilesKey("depend")
  {
    assert "depend"[1..] != "files";
  }

  /** A step keeps the shape. */
  lemma StepWellKeyed(st: ParseState, line: Words)
    requires WellKeyed(st) && Step(st, line).Ok?
    ensures WellKeyed(Step(st, line).value)
  {
    StepOnWellKeyed(st, Key(line), Rest(line));
  }

  lemma StepOnWellKeyed(st: ParseState, key: string, items: seq<string>)
    requires WellKeyed(st) && StepOn(st, key, items).Ok?
    ensures WellKeyed(StepOn(st, key, items).value)
  {
    DependIsNotFilesKey();
    var value := Join(items, " ");
    if IsFilesKey(key) {
      FilesLineWellKeyed(st, key, Attributes(items).value - {"files"});
    } else if key == "" {
      var f := st.entry[st.currentKey];
      EntryUpdateWellKeyed(st, st.currentKey, Files(f.attrs, f.files + [value]));
    } else if key == "depend" {
      EntryUpdateWellKeyed(st, key, Deps(DependsOf(st.entry) + [value]));
    } else if st.previousKey == key {
      EntryUpdateWellKeyed(st, key, Text(st.entry[key].s + " " + value));
    } else {
      TextLineWellKeyed(st, key, value);
    }
  }

  /** A field replaced by one of the kind its key calls for keeps the shape. */
  lemma EntryUpdateWellKeyed(st: ParseState, key: string, f: Field)
    requires WellKeyed(st) && key != ""
    requires IsFilesKey(key) ==> f.Files?
    requires key == "depend" ==> f.Deps?
    requires IsTextKey(key) ==> f.Text?
    ensures WellKeyed(st.(entry := st.entry[key := f]))
  {
  }

  lemma FilesLineWellKeyed(st: ParseState, key: string, attrs: map<string, string>)
    requires WellKeyed(st) && IsFilesKey(key) && key != ""
    ensures WellKeyed(st.(entry := st.entry[key := Files(attrs, [])], currentKey := key))
  {
    EntryUpdateWellKeyed(st, key, Files(attrs, []));
  }

  lemma TextLineWellKeyed(st: ParseState, key: string, value: string)
    requires WellKeyed(st) && IsTextKey(key)
    ensures WellKeyed(ParseState(st.entry[key := Text(value)], key, ""))
  {
    EntryUpdateWellKeyed(st, key, Text(value));
  }

  /** From the shape, a step can fail in two ways only: a files line with an item that
      is not key=value (ValueError), or a continuation line before any files line
      (KeyError). */
  lemma StepErrors(st: ParseState, line: Words)
    requires WellKeyed(st)
    ensures var key := Key(line);
      Step(st, line).Err? <==>
        (IsFilesKey(key) && Attributes(Rest(line)).Err?) || (key == "" && st.currentKey == "")
    ensures Step(st, line).Err? ==> Step(st, line).error == ValueError || Step(st, line).error == KeyError
  {
    StepOnErrors(st, Key(line), Rest(line));
  }

  lemma StepOnErrors(st: ParseState, key: string, items: seq<string>)
    requires WellKeyed(st)
    ensures StepOn(st, key, items).Err? <==>
      (IsFilesKey(key) && Attributes(items).Err?) || (key == "" && st.currentKey == "")
    ensures StepOn(st, key, items).Err? ==>
      StepOn(st, key, items).error == ValueError || StepOn(st, key, items).error == KeyError
  {
    DependIsNotFilesKey();
    if IsFilesKey(key) {
    } else if key == "" {
      assert st.currentKey in st.entry <==> st.currentKey != "";
    } else if key == "depend" {
      assert "depend" in st.entry ==> st.entry["depend"].Deps?;
    } else if st.previousKey == key {
      assert key in st.entry && st.entry[key].Text?;
    }
  }

  lemma {:induction false} RunWellKeyed(st: ParseState, lines: seq<Words>)
    requires WellKeyed(st) && Run(st, lines).Ok?
    ensures WellKeyed(Run(st, lines).value)
    decreases |lines|
  {
    if |lines| > 0 {
      StepWellKeyed(st, lines[0]);
      RunWellKeyed(Step(st, lines[0]).value, lines[1..]);
    }
  }

  /** The "depend" values collected so far. */
  function DependsOf(e: Entry): seq<string>
  {
    if "depend" in e && e["depend"].Deps? then e["depend"].items else []
  }

  /** The values of the "depend" lines, in order. */
  function DependValues(lines: seq<Words>): seq<string>
    decreases |lines|
  {
    if |lines| == 0 then []
    else (if Key(lines[0]) == "depend" then [Value(lines[0])] else []) + DependValues(lines[1..])
  }

  lemma StepDepends(st: ParseState, line: Words)
    requires WellKeyed(st) && Step(st, line).Ok?
    ensures DependsOf(Step(st, line).value.entry) ==
      DependsOf(st.entry) + (if Key(line) == "depend" then [Value(line)] else [])
  {
    StepOnDepends(st, Key(line), Rest(line));
  }

  lemma StepOnDepends(st: ParseState, key: string, items: seq<string>)
    requires WellKeyed(st) && StepOn(st, key, items).Ok?
    ensures DependsOf(StepOn(st, key, items).value.entry) ==
      DependsOf(st.entry) + (if key == "depend" then [Join(items, " ")] else [])
  {
    DependIsNotFilesKey();
    var t := StepOn(st, key, items).value.entry;
    if key == "depend" {
      if "depend" !in st.entry {
        assert [] + [Join(items, " ")] == [Join(items, " ")];
      }
    } else {
      assert "depend" in t <==> "depend" in st.entry;
      assert "depend" in t ==> t["depend"] == st.entry["depend"];
      assert DependsOf(st.entry) + [] == DependsOf(st.entry);
    }
  }

  /** "depend" lines accumulate into one list in input order. */
  lemma {:induction false} DependsInOrder(st: ParseState, lines: seq<Words>)
    requires WellKeyed(st) && Run(st, lines).Ok?
    ensures DependsOf(Run(st, lines).value.entry) == DependsOf(st.entry) + DependValues(lines)
    decreases |lines|
  {
    if |lines| > 0 {
      var next := Step(st, lines[0]).value;
      StepWellKeyed(st, lines[0]);
      DependsInOrder(next, lines[1..]);
      StepDepends(st, lines[0]);
      RunCons(st, lines, next);
      DependsCons(lines, DependsOf(st.entry), DependsOf(next.entry), DependsOf(Run(next, lines[1..]).value.entry));
    }
  }

  lemma DependsCons(lines: seq<Words>, d0: seq<string>, d1: seq<string>, d2: seq<string>)
    requires |lines| > 0
    requires d1 == d0 + (if Key(lines[0]) == "depend" then [Value(lines[0])] else [])
    requires d2 == d1 + DependValues(lines[1..])
    ensures d2 == d0 + DependValues(lines)
  {
    DependValuesCons(lines);
    var h := if Key(lines[0]) == "depend" then [Value(lines[0])] else [];
    SeqAssoc(d0, h, DependValues(lines[1..]));
  }

  lemma RunCons(st: ParseState, lines: seq<Words>, next: ParseState)
    requires |lines| > 0 && Step(st, lines[0]) == Ok(next)
    ensures Run(st, lines) == Run(next, lines[1..])
  {
  }

  lemma DependValuesCons(lines: seq<Words>)
    requires |lines| > 0
    ensures DependValues(lines) == (if Key(lines[0]) == "depend" then [Value(lines[0])] else []) + DependValues(lines[1..])
  {
  }

  /** The values of continuation lines. */
  function ValuesOf(lines: seq<Words>): seq<string>
    decreases |lines|
  {
    if |lines| == 0 then [] else [Value(lines[0])] + ValuesOf(lines[1..])
  }

  /** The current files record with `values` appended to its list. */
  function Appended(st: ParseState, values: seq<string>): Entry
    requires st.currentKey in st.entry && st.entry[st.currentKey].Files?
  {
    var f := st.entry[st.currentKey];
    st.entry[st.currentKey := Files(f.attrs, f.files + values)]
  }

  /** One continuation line appends its value to the current files record. */
  lemma ContinuationStep(st: ParseState, line: Words)
    requires WellKeyed(st) && st.currentKey != "" && Key(line) == ""
    ensures Step(st, line) == Ok(st.(entry := Appended(st, [Value(line)])))
    ensures WellKeyed(st.(entry := Appended(st, [Value(line)])))
  {
    StepWellKeyed(st, line);
  }

  /** Continuation lines (those starting with a space) append their values to the list
      of the files record that current_key names, and change nothing else. */
  lemma {:induction false} ContinuationsAppend(st: ParseState, lines: seq<Words>)
    requires WellKeyed(st) && st.currentKey != ""
    requires forall i :: 0 <= i < |lines| ==> Key(lines[i]) == ""
    ensures Run(st, lines) == Ok(st.(entry := Appended(st, ValuesOf(lines))))
    decreases |lines|
  {
    var f := st.entry[st.currentKey];
    if |lines| == 0 {
      assert f.files + [] == f.files;
      assert Appended(st, []) == st.entry;
    } else {
      var next := st.(entry := Appended(st, [Value(lines[0])]));
      ContinuationStep(st, lines[0]);
      RunCons(st, lines, next);
      assert forall i :: 0 <= i < |lines[1..]| ==> lines[1..][i] == lines[i + 1];
      ContinuationsAppend(next, lines[1..]);
      ValuesOfCons(lines);
      AppendedTwice(st, [Value(lines[0])], ValuesOf(lines[1..]));
    }
  }

  lemma ValuesOfCons(lines: seq<Words>)
    requires |lines| > 0
    ensures ValuesOf(lines) == [Value(lines[0])] + ValuesOf(lines[1..])
  {
  }

  lemma AppendedTwice(st: ParseState, x: seq<string>, y: seq<string>)
    requires st.currentKey in st.entry && st.entry[st.currentKey].Files?
    ensures Appended(st.(entry := Appended(st, x)), y) == Appended(st, x + y)
  {
    var f := st.entry[st.currentKey];
    assert f.files + x + y == f.files + (x + y);
  }

  /** A files line stores its attributes with an empty "files" list, and the
      continuation lines after it fill that list. */
  lemma FilesBlock(st: ParseState, first: Words, rest: seq<Words>)
    requires WellKeyed(st)
    requires IsFilesKey(Key(first)) && Attributes(Rest(first)).Ok?
    requires forall i :: 0 <= i < |rest| ==> Key(rest[i]) == ""
    ensures Run(st, [first] + rest).Ok?
    ensures Key(first) in Run(st, [first] + rest).value.entry
    ensures Run(st, [first] + rest).value.entry[Key(first)] ==
      Files(Attributes(Rest(first)).value - {"files"}, ValuesOf(rest))
  {
    var lines := [first] + rest;
    var attrs := Attributes(Rest(first)).value - {"files"};
    var next := st.(entry := st.entry[Key(first) := Files(attrs, [])], currentKey := Key(first));
    assert Step(st, first) == Ok(next);
    assert lines[0] == first && lines[1..] == rest;
    RunCons(st, lines, next);
    StepWellKeyed(st, first);
    ContinuationsAppend(next, rest);
    assert [] + ValuesOf(rest) == ValuesOf(rest);
  }

  /** A text key other than the previous one starts a new value, replacing any earlier
      value of that key, and clears current_key. */
  lemma NewKeyStartsValue(st: ParseState, line: Words)
    requires IsTextKey(Key(line)) && st.previousKey != Key(line)
    ensures Step(st, line) == Ok(ParseState(st.entry[Key(line) := Text(Value(line))], Key(line), ""))
  {
    DependIsNotFilesKey();
  }

  /** The text of the lines' values, joined with single spaces after `t`. */
  function Concatenated(t: string, lines: seq<Words>): string
    decreases |lines|
  {
    if |lines| == 0 then t else Concatenated(t + " " + Value(lines[0]), lines[1..])
  }

  /** Lines with the previous key concatenate their values onto its text with one space. */
  lemma {:induction false} SameKeyConcatenates(st: ParseState, lines: seq<Words>)
    requires WellKeyed(st) && st.previousKey != ""
    requires forall i :: 0 <= i < |lines| ==> Key(lines[i]) == st.previousKey
    ensures Run(st, lines).Ok?
    ensures Run(st, lines).value.entry == st.entry[st.previousKey := Text(Concatenated(st.entry[st.previousKey].s, lines))]
    ensures Run(st, lines).value.previousKey == st.previousKey
    decreases |lines|
  {
    var k := st.previousKey;
    if |lines| == 0 {
      assert st.entry[k := Text(st.entry[k].s)] == st.entry;
    } else {
      DependIsNotFilesKey();
      var next := Step(st, lines[0]).value;
      assert next.entry == st.entry[k := Text(st.entry[k].s + " " + Value(lines[0]))];
      StepWellKeyed(st, lines[0]);
      SameKeyConcatenates(next, lines[1..]);
    }
  }

  /** A run of lines with one text key gives that key the values joined with spaces. */
  lemma KeyRunValue(st: ParseState, lines: seq<Words>)
    requires WellKeyed(st) && |lines| > 0 && IsTextKey(Key(lines[0])) && st.previousKey != Key(lines[0])
    requires forall i :: 0 <= i < |lines| ==> Key(lines[i]) == Key(lines[0])
    ensures Run(st, lines).Ok?
    ensures Key(lines[0]) in Run(st, lines).value.entry
    ensures Run(st, lines).value.entry[Key(lines[0])] == Text(Concatenated(Value(lines[0]), lines[1..]))
  {
    NewKeyStartsValue(st, lines[0]);
    var next := Step(st, lines[0]).value;
    StepWellKeyed(st, lines[0]);
    SameKeyConcatenates(next, lines[1..]);
  }

  /** A files or "depend" line leaves previous_key as it was, so a text key resumes its
      concatenation across them. */
  lemma PreviousKeySurvives(st: ParseState, line: Words)
    requires Step(st, line).Ok? && !IsTextKey(Key(line))
    ensures Step(st, line).value.previousKey == st.previousKey
  {
    StepOnKeepsPrevious(st, Key(line), Rest(line));
  }

  lemma StepOnKeepsPrevious(st: ParseState, key: string, items: seq<string>)
    requires StepOn(st, key, items).Ok? && !IsTextKey(key)
    ensures StepOn(st, key, items).value.previousKey == st.previousKey
  {
    if !IsFilesKey(key) && key != "" {
      assert key == "depend";
    }
  }

  /** Every line of an entry split at its spaces. */
  function WordLines(lines: seq<string>): (r: seq<Words>)
    ensures |r| == |lines| && forall i :: 0 <= i < |lines| ==> r[i] == WordsOf(lines[i])
  {
    seq(|lines|, i requires 0 <= i < |lines| => WordsOf(lines[i]))
  }

  /** The entry parsed from its lines. */
  function Parse(lines: seq<string>): Result<Entry>
  {
    var st :- Run(Initial, WordLines(lines));
    Ok(st.entry)
  }

  /** parse_data's inner loop over the lines of one entry. */
  method ParseEntry(lines: seq<string>) returns (r: Result<Entry>)
    ensures r == Parse(lines)
  {
    ghost var words := WordLines(lines);
    var entry: Entry := map[];
    var previousKey, currentKey := "", "";
    var i := 0;
    while i < |lines|
      invariant 0 <= i <= |lines|
      invariant Run(Initial, words) == Run(ParseState(entry, previousKey, currentKey), words[i..])
    {
      ghost var st := ParseState(entry, previousKey, currentKey);
      assert words[i..][0] == words[i] && words[i..][1..] == words[i + 1..];
      var parts := Split(lines[i], ' ');
      assert parts == words[i];
      var key := parts[0];
      var value := Join(parts[1..], " ");
      if IsFilesKey(key) {
        var attrs := Attributes(parts[1..]);
        if attrs.Err? {
          return Err(attrs.error);
        }
        currentKey := key;
        entry := entry[currentKey := Files(attrs.value - {"files"}, [])];
      } else if key == "" {
        if currentKey !in entry || !entry[currentKey].Files? {
          return Err(if currentKey !in entry then KeyError else TypeError);
        }
        entry := entry[currentKey := entry[currentKey].(files := entry[currentKey].files + [value])];
      } else if key == "depend" {
        if "depend" !in entry {
          entry := entry["depend" := Deps([value])];
        } else if entry["depend"].Deps? {
          entry := entry["depend" := Deps(entry["depend"].items + [value])];
        } else {
          return Err(AttributeError);
        }
      } else if previousKey == key {
        if key !in entry || !entry[key].Text? {
          return Err(if key !in entry then KeyError else TypeError);
        }
        entry := entry[key := Text(entry[key].s + " " + value)];
      } else {
        entry := entry[key := Text(value)];
        previousKey := key;
        currentKey := "";
      }
      assert Step(st, words[i]) == Ok(ParseState(entry, previousKey, currentKey));
      i := i + 1;
    }
    assert words[i..] == [];
    return Ok(entry);
  }

  /** The parse of every entry, or the first failure. */
  function ParsedEntries(entries: seq<seq<string>>): Result<seq<Entry>>
  {
    MapAll(Parse, entries)
  }

  /** One parsed entry per entry, in order, when every entry parses. */
  lemma ParsedEntriesPointwise(entries: seq<seq<string>>)
    ensures ParsedEntries(entries).Ok? <==> forall k :: 0 <= k < |entries| ==> Parse(entries[k]).Ok?
    ensures ParsedEntries(entries).Ok? ==> |ParsedEntries(entries).value| == |entries|
    ensures ParsedEntries(entries).Ok? ==>
      forall k :: 0 <= k < |entries| ==> ParsedEntries(entries).value[k] == Parse(entries[k]).value
  {
    MapAllPointwise(Parse, entries);
  }

  /** parse_data on the text of the file. */
  function Parsed(text: string): Result<seq<Entry>>
  {
    var entries :- Entries(text);
    ParsedEntries(entries)
  }

  /** Every parsed entry has the shape WellKeyed describes. */
  lemma ParsedWellKeyed(text: string, k: nat)
    requires Parsed(text).Ok? && k < |Parsed(text).value|
    ensures exists st :: WellKeyed(st) && st.entry == Parsed(text).value[k]
  {
    var entries := Entries(text).value;
    assert Parsed(text) == ParsedEntries(entries);
    ParsedEntriesPointwise(entries);
    assert Parse(entries[k]).Ok?;
    RunWellKeyed(Initial, WordLines(entries[k]));
    var st := Run(Initial, WordLines(entries[k])).value;
    assert WellKeyed(st) && st.entry == Parsed(text).value[k];
  }

  /** parse_data: the entries selected, then each parsed. */
  method ParseData(text: string) returns (r: Result<seq<Entry>>)
    ensures r == Parsed(text)
  {
    var selected := Entries(text);
    if selected.Err? {
      return Err(selected.error);
    }
    var entries := selected.value;
    var result: seq<Entry> := [];
    var i := 0;
    while i < |entries|
      invariant 0 <= i <= |entries|
      invariant ParsedEntries(entries[..i]) == Ok(result)
    {
      var parsed := ParseEntry(entries[i]);
      MapAllSnoc(Parse, entries, i, result);
      if parsed.Err? {
        return Err(parsed.error);
      }
      result := result + [parsed.value];
      i := i + 1;
    }
    assert entries[..i] == entries;
    return Ok(result);
  }

  // ---------------------------------------------------------------------------------
  // process_data: the fields of each record, with their fallbacks

  const ZipBase := "http://www.ctan.org/tex-archive"
  const ArchiveBase := "http://mirror.ctan.org/systems/texlive/tlnet/archive"

  datatype CtanRecord = CtanRecord(name: string, description: string, longDescription: string,
                                   version: string, license: string, sourceType: string,
                                   baseSrcUri: string, catalogue: string)

  /** entry[key] where a text is needed: a missing key is a KeyError, a field that is
      not a text is refused with TypeError. */
  function TextOf(e: Entry, key: string): (r: Result<string>)
    ensures key !in e <==> r == Err(KeyError)
    ensures r.Ok? <==> key in e && e[key].Text?
    ensures r.Ok? ==> r.value == e[key].s
  {
    if key !in e then Err(KeyError)
    else if e[key].Text? then Ok(e[key].s)
    else Err(TypeError)
  }

  /** The key is absent or holds a text. */
  predicate OptionalText(e: Entry, key: string)
  {
    key !in e || e[key].Text?
  }

  /** The fields of one entry as process_data picks them. */
  function Record(e: Entry): (r: Result<CtanRecord>)
  {
    var name :- TextOf(e, "name");
    var short :- if "shortdesc" in e then TextOf(e, "shortdesc") else Ok(name);
    var description := Filtered(short);
    var long :- if "longdesc" in e then TextOf(e, "longdesc") else Ok(description);
    var longDescription := if "longdesc" in e then Filtered(long) else description;
    var version :- if "catalogue-version" in e then TextOf(e, "catalogue-version") else TextOf(e, "revision");
    var license :- if "catalogue-license" in e then TextOf(e, "catalogue-license") else Ok("unknown");
    if "catalogue-ctan" in e then
      var catalogue :- TextOf(e, "catalogue-ctan");
      Ok(CtanRecord(name, description, longDescription, version, license, "zip", ZipBase, catalogue))
    else
      Ok(CtanRecord(name, description, longDescription, version, license, "tar.xz", ArchiveBase, ""))
  }

  /** The fallbacks of process_data: description is shortdesc, else name, filtered;
      longdescription is longdesc filtered, else the description; version is
      catalogue-version, else revision; license is catalogue-license, else "unknown";
      the source is a zip from CTAN exactly when catalogue-ctan is there. */
  lemma RecordFallbacks(e: Entry)
    ensures "name" !in e ==> Record(e) == Err(KeyError)
    ensures Record(e).Ok? <==>
      TextOf(e, "name").Ok? && OptionalText(e, "shortdesc") && OptionalText(e, "longdesc") &&
      (if "catalogue-version" in e then e["catalogue-version"].Text? else TextOf(e, "revision").Ok?) &&
      OptionalText(e, "catalogue-license") && OptionalText(e, "catalogue-ctan")
    ensures Record(e).Ok? ==> Record(e).value.name == e["name"].s
    ensures Record(e).Ok? ==> Record(e).value.description == Filtered(if "shortdesc" in e then e["shortdesc"].s else e["name"].s)
    ensures Record(e).Ok? ==> (Record(e).value.longDescription ==
      if "longdesc" in e then Filtered(e["longdesc"].s) else Record(e).value.description)
    ensures Record(e).Ok? ==> Record(e).value.version == if "catalogue-version" in e then e["catalogue-version"].s else e["revision"].s
    ensures Record(e).Ok? ==> Record(e).value.license == if "catalogue-license" in e then e["catalogue-license"].s else "unknown"
    ensures Record(e).Ok? ==> (Record(e).value.sourceType == "zip" <==> "catalogue-ctan" in e)
    ensures Record(e).Ok? ==> Record(e).value.baseSrcUri == (if "catalogue-ctan" in e then ZipBase else ArchiveBase)
    ensures Record(e).Ok? ==> Record(e).value.catalogue == if "catalogue-ctan" in e then e["catalogue-ctan"].s else ""
  {
  }

  /** Both descriptions of a record hold only the characters the filter lets through. */
  lemma RecordAllowed(e: Entry)
    ensures Record(e).Ok? ==> forall i :: 0 <= i < |Record(e).value.description| ==> Allowed(Record(e).value.description[i])
    ensures Record(e).Ok? ==> forall i :: 0 <= i < |Record(e).value.longDescription| ==> Allowed(Record(e).value.longDescription[i])
  {
    RecordFallbacks(e);
    if Record(e).Ok? {
      FilteredAllowed(if "shortdesc" in e then e["shortdesc"].s else e["name"].s);
      if "longdesc" in e {
        FilteredAllowed(e["longdesc"].s);
      }
    }
  }

  /** For a parsed entry only the fields that must be there can be missing: the name,
      and the revision when there is no catalogue version. */
  lemma ParsedRecord(st: ParseState)
    requires WellKeyed(st)
    ensures Record(st.entry).Ok? <==>
      "name" in st.entry && ("catalogue-version" in st.entry || "revision" in st.entry)
    ensures Record(st.entry).Err? ==> Record(st.entry).error == KeyError
  {
    RecordKeysAreTextKeys();
    RecordFallbacks(st.entry);
    KeyErrorsOnly(st.entry);
  }

  /** The keys process_data reads are stored as text. */
  lemma RecordKeysAreTextKeys()
    ensures forall k :: k in RecordKeys ==> IsTextKey(k)
  {
    forall k | k in RecordKeys
      ensures IsTextKey(k)
    {
      DependIsNotFilesKey();
      assert |k| < 5 || k[|k| - 5] != 'f';
    }
  }

  const RecordKeys: set<string> :=
    {"name", "shortdesc", "longdesc", "catalogue-version", "revision", "catalogue-license", "catalogue-ctan"}

  /** When every key process_data reads is absent or a text, only a missing key fails. */
  lemma KeyErrorsOnly(e: Entry)
    requires forall k :: k in RecordKeys && k in e ==> e[k].Text?
    ensures Record(e).Err? ==> Record(e).error == KeyError
  {
  }

  /** The records of every entry, or the first failure. */
  function Records(entries: seq<Entry>): Result<seq<CtanRecord>>
  {
    MapAll(Record, entries)
  }

  /** One record per entry, in order, when every entry has one. */
  lemma RecordsPointwise(entries: seq<Entry>)
    ensures Records(entries).Ok? <==> forall k :: 0 <= k < |entries| ==> Record(entries[k]).Ok?
    ensures Records(entries).Ok? ==> |Records(entries).value| == |entries|
    ensures Records(entries).Ok? ==>
      forall k :: 0 <= k < |entries| ==> Records(entries).value[k] == Record(entries[k]).value
  {
    MapAllPointwise(Record, entries);
  }

  /** process_data: the category dev-tex is added, then the record of every entry of
      the tlpdb file is computed. The records are only printed; here they are the
      result. */
  method ProcessData(db: PackageDB, data: map<string, seq<Entry>>) returns (r: Result<seq<CtanRecord>>)
    modifies db
    ensures db.Contents() == WithCategory(old(db.Contents()), "dev-tex", Null)
    ensures "texlive.tlpdb" !in data ==> r == Err(KeyError)
    ensures "texlive.tlpdb" in data ==> r == Records(data["texlive.tlpdb"])
  {
    db.AddCategory("dev-tex", Null);
    if "texlive.tlpdb" !in data {
      return Err(KeyError);
    }
    var entries := data["texlive.tlpdb"];
    var records: seq<CtanRecord> := [];
    ghost var added := db.Contents();
    var i := 0;
    while i < |entries|
      invariant 0 <= i <= |entries|
      invariant db.Contents() == added
      invariant Records(entries[..i]) == Ok(records)
    {
      var record := Record(entries[i]);
      MapAllSnoc(Record, entries, i, records);
      if record.Err? {
        return Err(record.error);
      }
      records := records + [record.value];
      i := i + 1;
    }
    assert entries[..i] == entries;
    return Ok(records);
  }
}
