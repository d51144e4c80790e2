/** The exception list: a line-oriented parser for a small YAML subset, and the printing it undoes. */
module ExceptionList {
  import opened Wrappers
  import opened PyStrings

  type Record = map<string, string>

  /** Removes one pair of matching quotes; a lone quote counts as both. */
  function Unquoted(v: string): string {
    if v != "" && (v[0] == '"' == v[|v| - 1] || v[0] == '\'' == v[|v| - 1]) then
      if |v| == 1 then "" else v[1..|v| - 1]
    else v
  }

  /** Splits "key: value" at the first colon; without one the script raises. */
  function SplitKV(line: string): Option<(string, string)> {
    var k := Find(line, ':');
    if k == |line| then None else Some((Strip(line[..k]), Unquoted(Strip(line[k + 1..]))))
  }

  /** What a raw line means to the parser. */
  datatype Line = Other | Item(key: string, value: string) | Pair(key: string, value: string) | Malformed

  function Classify(raw: string): Line {
    var line := Strip(raw);
    if line == "" || line[0] == '#' then Other
    else if "version:" <= line || "exceptions:" <= line then Other
    else if "- " <= line then
      match SplitKV(Strip(line[2..]))
      case None => Malformed
      case Some((k, v)) => Item(k, v)
    else
      match SplitKV(line)
      case None => Other
      case Some((k, v)) => Pair(k, v)
  }

  function ClassifyAll(lines: seq<string>): (ls: seq<Line>)
    ensures |ls| == |lines| && forall i :: 0 <= i < |lines| ==> ls[i] == Classify(lines[i])
  {
    seq(|lines|, i requires 0 <= i < |lines| => Classify(lines[i]))
  }

  // ---------- what a list of lines says ----------

  /** The pairs up to the next item, entered into a record; a later pair overwrites an earlier one. */
  function Body(r: Record, ls: seq<Line>): Record
    decreases |ls|
  {
    if ls == [] || ls[0].Item? then r
    else if ls[0].Pair? then Body(r[ls[0].key := ls[0].value], ls[1..])
    else Body(r, ls[1..])
  }

  /** Every item line starts a record, which takes its own pair and those that follow it up to the next item. */
  function Records(ls: seq<Line>): seq<Record> {
    if ls == [] then []
    else if ls[0].Item? then [Body(map[ls[0].key := ls[0].value], ls[1..])] + Records(ls[1..])
    else Records(ls[1..])
  }

  /** The records of some lines, or None if an item line cannot be split. */
  function ReadAll(ls: seq<Line>): Option<seq<Record>> {
    if Malformed in ls then None else Some(Records(ls))
  }

  /** The parsed list. */
  function Parsed(lines: seq<string>): Option<seq<Record>> {
    ReadAll(ClassifyAll(lines))
  }

  // ---------- the parser ----------

  /** What is still to come out: the record being read, completed by the remaining lines, and their records. */
  ghost function Remaining(current: Option<Record>, ls: seq<Line>): seq<Record> {
    (if current.Some? then [Body(current.value, ls)] else []) + Records(ls)
  }

  /** A stripped line that starts with "- " has something after it. */
  lemma ItemHasRest(line: string)
    requires Trimmed(line) && "- " <= line
    ensures Strip(line[2..]) != ""
  {
    assert line[|line| - 1] != ' ' && line[1] == ' ';
    StripKeeps(line[2..], |line| - 3);
  }

  /** The finished records and the one being read, after a line that can be split. */
  ghost function Advance(l: Line, exceptions: seq<Record>, current: Option<Record>): (seq<Record>, Option<Record>) {
    match l
    case Item(k, v) => (exceptions + (if current.Some? then [current.value] else []), Some(map[k := v]))
    case Pair(k, v) => (exceptions, if current.Some? then Some(current.value[k := v]) else None)
    case _ => (exceptions, current)
  }

  /** Advancing over a line leaves the final list unchanged. */
  lemma AdvanceKeeps(ls: seq<Line>, i: nat, exceptions: seq<Record>, current: Option<Record>)
    requires i < |ls|
    ensures var (e, c) := Advance(ls[i], exceptions, current);
            e + Remaining(c, ls[i + 1..]) == exceptions + Remaining(current, ls[i..])
  {
    var rest := ls[i..];
    assert rest[0] == ls[i] && rest[1..] == ls[i + 1..];
    var (e, c) := Advance(ls[i], exceptions, current);
    if ls[i].Item? {
      var more := if current.Some? then [current.value] else [];
      assert Remaining(current, rest) == more + Remaining(c, ls[i + 1..]);
      assert (exceptions + more) + Remaining(c, ls[i + 1..]) == exceptions + (more + Remaining(c, ls[i + 1..]));
    }
  }

  /** One turn of the parser's loop: the finished records and the one being read, after a line; None when an item
      cannot be split. An empty record would be dropped, but none can arise. */
  method ParseLine(raw: string, exceptions: seq<Record>, current: Option<Record>)
    returns (r: Option<(seq<Record>, Option<Record>)>)
    requires current.Some? ==> current.value != map[]
    ensures Classify(raw) == Malformed ==> r == None
    ensures Classify(raw) != Malformed ==> r == Some(Advance(Classify(raw), exceptions, current))
    ensures r.Some? && r.value.1.Some? ==> r.value.1.value != map[]
  {
    var line := Strip(raw);
    if line == "" || line[0] == '#' {
      return Some((exceptions, current));
    }
    if "version:" <= line || "exceptions:" <= line {
      return Some((exceptions, current));
    }
    if "- " <= line {
      var finished := exceptions;
      if current.Some? && current.value != map[] {
        finished := finished + [current.value];
      } else {
        assert finished + [] == finished;
      }
      var started: Record := map[];
      ItemHasRest(line);
      line := Strip(line[2..]);
      if line != "" {
        var kv := SplitKV(line);
        if kv.None? {
          return None;
        }
        started := started[kv.value.0 := kv.value.1];
        assert kv.value.0 in started;
      }
      return Some((finished, Some(started)));
    }
    if current.Some? && ':' in line {
      var kv := SplitKV(line);
      var extended := current.value[kv.value.0 := kv.value.1];
      assert kv.value.0 in extended;
      return Some((exceptions, Some(extended)));
    }
    return Some((exceptions, current));
  }

  /** Reads the lines one by one. */
  method ParseExceptions(lines: seq<string>) returns (r: Option<seq<Record>>)
    ensures r == Parsed(lines)
  {
    var exceptions: seq<Record> := [];
    var current: Option<Record> := None;
    ghost var ls := ClassifyAll(lines);
    ghost var goal := Records(ls);
    for i := 0 to |lines|
      invariant Malformed !in ls[..i]
      invariant current.Some? ==> current.value != map[]
      invariant goal == exceptions + Remaining(current, ls[i..])
    {
      assert ls[..i + 1] == ls[..i] + [ls[i]];
      AdvanceKeeps(ls, i, exceptions, current);
      var next := ParseLine(lines[i], exceptions, current);
      if next.None? {
        assert ls[i] in ls;
        return None;
      }
      exceptions, current := next.value.0, next.value.1;
    }
    assert ls[..|lines|] == ls && ls[|lines|..] == [];
    assert goal == exceptions + if current.Some? then [current.value] else [];
    if current.Some? && current.value != map[] {
      exceptions := exceptions + [current.value];
    }
    assert exceptions == goal;
    return Some(exceptions);
  }

  // ---------- properties of parsing ----------

  function Items(ls: seq<Line>): nat {
    if ls == [] then 0 else (if ls[0].Item? then 1 else 0) + Items(ls[1..])
  }

  /** There are as many records as item lines, and none of them is empty. */
  lemma {:induction false} OneRecordPerItem(ls: seq<Line>)
    ensures |Records(ls)| == Items(ls)
    ensures forall r :: r in Records(ls) ==> r != map[]
  {
    if ls != [] {
      OneRecordPerItem(ls[1..]);
      if ls[0].Item? {
        BodyKeeps(map[ls[0].key := ls[0].value], ls[1..]);
        assert ls[0].key in Body(map[ls[0].key := ls[0].value], ls[1..]);
      }
    }
  }

  lemma {:induction false} BodyKeeps(r: Record, ls: seq<Line>)
    ensures r.Keys <= Body(r, ls).Keys
    decreases |ls|
  {
    if ls != [] && !ls[0].Item? {
      if ls[0].Pair? {
        BodyKeeps(r[ls[0].key := ls[0].value], ls[1..]);
      } else {
        BodyKeeps(r, ls[1..]);
      }
    }
  }

  lemma {:induction false} BodyStops(r: Record, xs: seq<Line>, ys: seq<Line>)
    requires ys == [] || ys[0].Item?
    ensures Body(r, xs + ys) == Body(r, xs)
    decreases |xs|
  {
    if xs == [] {
      assert xs + ys == ys;
    } else {
      assert (xs + ys)[1..] == xs[1..] + ys;
      if xs[0].Pair? {
        BodyStops(r[xs[0].key := xs[0].value], xs[1..], ys);
      } else if !xs[0].Item? {
        BodyStops(r, xs[1..], ys);
      }
    }
  }

  /** Cutting in front of an item line cuts the records. */
  lemma {:induction false} RecordsSplit(xs: seq<Line>, ys: seq<Line>)
    requires ys == [] || ys[0].Item?
    ensures Records(xs + ys) == Records(xs) + Records(ys)
  {
    if xs == [] {
      assert xs + ys == ys;
    } else {
      assert (xs + ys)[1..] == xs[1..] + ys;
      RecordsSplit(xs[1..], ys);
      if xs[0].Item? {
        BodyStops(map[xs[0].key := xs[0].value], xs[1..], ys);
      }
    }
  }

  lemma ReadSplit(xs: seq<Line>, ys: seq<Line>)
    requires ys == [] || ys[0].Item?
    ensures ReadAll(xs + ys) ==
            if ReadAll(xs).None? || ReadAll(ys).None? then None else Some(ReadAll(xs).value + ReadAll(ys).value)
  {
    RecordsSplit(xs, ys);
  }

  lemma ClassifyConcat(xs: seq<string>, ys: seq<string>)
    ensures ClassifyAll(xs + ys) == ClassifyAll(xs) + ClassifyAll(ys)
  {
  }

  /** Parsing is a homomorphism at item boundaries: two lists can be parsed apart and joined. */
  lemma ParseSplit(xs: seq<string>, ys: seq<string>)
    requires ys == [] || Classify(ys[0]).Item?
    ensures Parsed(xs + ys) ==
            if Parsed(xs).None? || Parsed(ys).None? then None else Some(Parsed(xs).value + Parsed(ys).value)
  {
    ClassifyConcat(xs, ys);
    ReadSplit(ClassifyAll(xs), ClassifyAll(ys));
  }

  lemma {:induction false} BodyIgnores(r: Record, xs: seq<Line>, ys: seq<Line>)
    ensures Body(r, xs + [Other] + ys) == Body(r, xs + ys)
    decreases |xs|
  {
    if xs == [] {
      assert xs + [Other] + ys == [Other] + ys && xs + ys == ys;
    } else {
      assert (xs + [Other] + ys)[1..] == xs[1..] + [Other] + ys && (xs + ys)[1..] == xs[1..] + ys;
      if xs[0].Pair? {
        BodyIgnores(r[xs[0].key := xs[0].value], xs[1..], ys);
      } else if !xs[0].Item? {
        BodyIgnores(r, xs[1..], ys);
      }
    }
  }

  lemma {:induction false} RecordsIgnore(xs: seq<Line>, ys: seq<Line>)
    ensures Records(xs + [Other] + ys) == Records(xs + ys)
  {
    if xs == [] {
      assert xs + [Other] + ys == [Other] + ys && xs + ys == ys;
    } else {
      assert (xs + [Other] + ys)[1..] == xs[1..] + [Other] + ys && (xs + ys)[1..] == xs[1..] + ys;
      RecordsIgnore(xs[1..], ys);
      if xs[0].Item? {
        BodyIgnores(map[xs[0].key := xs[0].value], xs[1..], ys);
      }
    }
  }

  /** Blank lines, comments, and lines that open with "version:" or "exceptions:" can be inserted anywhere, even
      inside a record. So can a bare dash, which is not an item: the pairs after it still go to the record above. */
  lemma IgnoredLinesAreFree(xs: seq<string>, line: string, ys: seq<string>)
    requires var s := Strip(line); s == "" || s[0] == '#' || "version:" <= s || "exceptions:" <= s || s == "-"
    ensures Parsed(xs + [line] + ys) == Parsed(xs + ys)
  {
    IgnoredLine(line);
    OtherLinesAreFree(xs, line, ys);
  }

  lemma OtherLinesAreFree(xs: seq<string>, line: string, ys: seq<string>)
    requires Classify(line) == Other
    ensures Parsed(xs + [line] + ys) == Parsed(xs + ys)
  {
    ClassifyConcat(xs + [line], ys);
    ClassifyConcat(xs, [line]);
    ClassifyConcat(xs, ys);
    assert ClassifyAll([line]) == [Other];
    ReadIgnores(ClassifyAll(xs), ClassifyAll(ys));
  }

  lemma ReadIgnores(xs: seq<Line>, ys: seq<Line>)
    ensures ReadAll(xs + [Other] + ys) == ReadAll(xs + ys)
  {
    RecordsIgnore(xs, ys);
  }

  lemma IgnoredLine(line: string)
    requires var s := Strip(line); s == "" || s[0] == '#' || "version:" <= s || "exceptions:" <= s || s == "-"
    ensures Classify(line) == Other
  {
    if Strip(line) == "-" {
      assert ':' !in "-";
    }
  }

  // ---------- printing ----------

  /** How a value is written: as it is, or between quotes of one kind. */
  datatype Style = Plain | SingleQuotes | DoubleQuotes

  /** A field to print. */
  datatype Field = Field(key: string, value: string, style: Style)

  /** A record to print: a first field and others, in order. */
  datatype Entry = Entry(first: Field, rest: seq<Field>)

  function Between(quote: char, v: string): string {
    [quote] + v + [quote]
  }

  function Written(f: Field): string {
    match f.style
    case Plain => f.value
    case SingleQuotes => Between('\'', f.value)
    case DoubleQuotes => Between('"', f.value)
  }

  /** What stands after the colon; an empty text leaves no space behind. */
  function After(text: string): string {
    if text == "" then "" else [' '] + text
  }

  function Printed(f: Field): string {
    f.key + [':'] + After(Written(f))
  }

  function PrintRest(rest: seq<Field>): seq<string> {
    if rest == [] then [] else ["    " + Printed(rest[0])] + PrintRest(rest[1..])
  }

  function Print(es: seq<Entry>): seq<string> {
    if es == [] then []
    else ["  - " + Printed(es[0].first)] + PrintRest(es[0].rest) + Print(es[1..])
  }

  /** The record an entry stands for; a later field overwrites an earlier one with the same key. */
  function ToRecord(r: Record, rest: seq<Field>): Record
    decreases |rest|
  {
    if rest == [] then r else ToRecord(r[rest[0].key := rest[0].value], rest[1..])
  }

  function ToRecords(es: seq<Entry>): seq<Record> {
    if es == [] then []
    else [ToRecord(map[es[0].first.key := es[0].first.value], es[0].rest)] + ToRecords(es[1..])
  }

  /** A record holds the keys that occur and those that were there before. */
  lemma {:induction false} ToRecordKeys(r: Record, rest: seq<Field>, k: string)
    ensures k in ToRecord(r, rest) <==> k in r || exists i :: 0 <= i < |rest| && rest[i].key == k
    ensures k in r && (forall i :: 0 <= i < |rest| ==> rest[i].key != k) ==> ToRecord(r, rest)[k] == r[k]
    decreases |rest|
  {
    if rest != [] {
      var more := rest[1..];
      ToRecordKeys(r[rest[0].key := rest[0].value], more, k);
      assert forall i :: 0 <= i < |more| ==> more[i] == rest[i + 1];
      assert forall i :: 0 < i < |rest| ==> rest[i] == more[i - 1];
    }
  }

  /** Under each key it holds the last value. */
  lemma {:induction false} ToRecordLast(r: Record, rest: seq<Field>, i: nat)
    requires i < |rest| && forall j :: i < j < |rest| ==> rest[j].key != rest[i].key
    ensures rest[i].key in ToRecord(r, rest) && ToRecord(r, rest)[rest[i].key] == rest[i].value
    decreases |rest|
  {
    var r', more := r[rest[0].key := rest[0].value], rest[1..];
    assert forall j :: 0 <= j < |more| ==> more[j] == rest[j + 1];
    if i > 0 {
      ToRecordLast(r', more, i - 1);
    } else {
      ToRecordKeys(r', more, rest[0].key);
    }
  }

  /** A key that can be printed: no colon and no outer spaces. */
  predicate PlainKey(k: string) {
    ':' !in k && Trimmed(k)
  }

  /** A key that can stand on a line of its own: it does not look like a comment, an item, or a skipped line. */
  predicate LineKey(k: string) {
    PlainKey(k) && (k == "" || k[0] != '#') && !("- " <= k) && k != "version" && k != "exceptions"
  }

  /** A value that can be written as it is: no outer spaces, and not both ends the same quote. */
  predicate PlainValue(v: string) {
    Trimmed(v) && (v == "" || !(v[0] == v[|v| - 1] && v[0] in "'\""))
  }

  predicate PrintableValue(f: Field) {
    f.style.Plain? ==> PlainValue(f.value)
  }

  predicate Printable(e: Entry) {
    && PlainKey(e.first.key) && PrintableValue(e.first)
    && forall i :: 0 <= i < |e.rest| ==> LineKey(e.rest[i].key) && PrintableValue(e.rest[i])
  }

  lemma UnquoteBetween(quote: char, v: string)
    requires quote in "'\""
    ensures Unquoted(Between(quote, v)) == v && Trimmed(Between(quote, v)) && Between(quote, v) != ""
  {
    var q := Between(quote, v);
    assert quote == '\'' || quote == '"';
    assert q[0] == quote && q[|q| - 1] == quote && q[1..|q| - 1] == v;
  }

  lemma UnquoteWritten(f: Field)
    requires PrintableValue(f)
    ensures Unquoted(Written(f)) == f.value && Trimmed(Written(f))
  {
    match f.style
    case Plain =>
      assert f.value != "" ==> f.value[0] in "'\"" || (f.value[0] != '\'' && f.value[0] != '"');
    case SingleQuotes => UnquoteBetween('\'', f.value);
    case DoubleQuotes => UnquoteBetween('"', f.value);
  }

  lemma StripIndented(left: string, s: string)
    requires Trimmed(s) && s != ""
    requires forall i :: 0 <= i < |left| ==> IsSpace(left[i])
    ensures Strip(left + s) == s
  {
    StripPadded(left, s, "");
    assert left + s + "" == left + s;
  }

  lemma SplitAtColon(key: string, tail: string)
    requires ':' !in key
    ensures SplitKV(key + [':'] + tail) == Some((Strip(key), Unquoted(Strip(tail))))
  {
    var line := key + [':'] + tail;
    FindAfter(key, ':', tail);
    assert line[..|key|] == key && line[|key| + 1..] == tail;
  }

  lemma SplitAtColonSpace(key: string, text: string)
    requires PlainKey(key) && Trimmed(text)
    ensures SplitKV(key + ": " + text) == Some((key, Unquoted(text)))
  {
    var tail := [' '] + text;
    SplitAtColon(key, tail);
    assert Strip(tail) == text by {
      if text == "" {
        StripBlank(tail);
      } else {
        StripIndented([' '], text);
      }
    }
    ColonThenSpace(key, text);
  }

  lemma ColonThenSpace(key: string, text: string)
    ensures key + ": " + text == key + [':'] + ([' '] + text)
  {
    assert key + ": " == key + [':'] + [' '];
  }

  /** Splitting a key and a value that is written as it is gives the two back. */
  lemma SplitPlain(key: string, v: string)
    requires PlainKey(key) && PlainValue(v)
    ensures SplitKV(key + ": " + v) == Some((key, v))
  {
    UnquoteWritten(Field(key, v, Plain));
    SplitAtColonSpace(key, v);
  }

  /** So it does for a value in quotes of either kind, whatever the value contains. */
  lemma SplitQuoted(key: string, v: string, quote: char)
    requires PlainKey(key) && quote in "'\""
    ensures SplitKV(key + ": " + ([quote] + v + [quote])) == Some((key, v))
  {
    UnquoteBetween(quote, v);
    SplitAtColonSpace(key, Between(quote, v));
  }

  /** A quote on its own counts as both the opening and the closing one. */
  lemma SplitLoneQuote(key: string, quote: char)
    requires PlainKey(key) && quote in "'\""
    ensures SplitKV(key + ": " + [quote]) == Some((key, ""))
  {
    assert quote == '\'' || quote == '"';
    SplitAtColonSpace(key, [quote]);
  }

  lemma SplitPrinted(f: Field)
    requires PlainKey(f.key) && PrintableValue(f)
    ensures SplitKV(Printed(f)) == Some((f.key, f.value))
  {
    UnquoteWritten(f);
    SplitAtColon(f.key, After(Written(f)));
    if Written(f) != "" {
      StripIndented([' '], Written(f));
    }
  }

  lemma PrintedTrimmed(f: Field)
    requires Trimmed(f.key) && PrintableValue(f)
    ensures Trimmed(Printed(f)) && Printed(f) != ""
    ensures f.key != "" ==> Printed(f)[0] == f.key[0]
    ensures f.key == "" ==> Printed(f)[0] == ':'
  {
    UnquoteWritten(f);
    var line, tail := Printed(f), After(Written(f));
    if tail == "" {
      assert line[|line| - 1] == ':';
    } else {
      assert tail[|tail| - 1] == Written(f)[|Written(f)| - 1];
      assert line[|line| - 1] == tail[|tail| - 1];
    }
  }

  lemma StripKeepsColon(s: string)
    ensures ':' in Strip(s) <==> ':' in s
  {
    var left, right := StripParts(s);
    assert forall i :: 0 <= i < |left| ==> left[i] != ':';
    assert forall i :: 0 <= i < |right| ==> right[i] != ':';
  }

  /** What a line is, by its stripped text: an item starts with a dash and a space, and is malformed without a colon; a
      pair is any other line with a colon that is not a comment and does not open the file or the list. */
  lemma ClassifyMeaning(raw: string)
    ensures var l := Strip(raw);
            var skipped := l == "" || l[0] == '#' || "version:" <= l || "exceptions:" <= l;
            && (Classify(raw).Item? <==> "- " <= l && ':' in l[2..])
            && (Classify(raw).Malformed? <==> "- " <= l && ':' !in l[2..])
            && (Classify(raw).Pair? <==> !skipped && !("- " <= l) && ':' in l)
            && (Classify(raw).Item? ==> SplitKV(Strip(l[2..])) == Some((Classify(raw).key, Classify(raw).value)))
            && (Classify(raw).Pair? ==> SplitKV(l) == Some((Classify(raw).key, Classify(raw).value)))
  {
    var l := Strip(raw);
    if "- " <= l {
      StripKeepsColon(l[2..]);
      assert l[0] == '-';
    }
  }

  lemma ItemLine(line: string)
    requires Trimmed(line) && line != ""
    ensures Classify("  - " + line) == match SplitKV(line) case None => Malformed case Some((k, v)) => Item(k, v)
  {
    var l := "- " + line;
    assert l[0] == '-' && l[|l| - 1] == line[|line| - 1] && l[2..] == line;
    StripIndented("  ", l);
    assert "  " + l == "  - " + line;
  }

  lemma PairLine(line: string)
    requires Trimmed(line) && line != "" && line[0] != '#' && !("- " <= line) && !("version:" <= line) &&
             !("exceptions:" <= line)
    ensures Classify("    " + line) == match SplitKV(line) case None => Other case Some((k, v)) => Pair(k, v)
  {
    StripIndented("    ", line);
  }

  lemma ClassifyItem(f: Field)
    requires PlainKey(f.key) && PrintableValue(f)
    ensures Classify("  - " + Printed(f)) == Item(f.key, f.value)
  {
    SplitPrinted(f);
    PrintedTrimmed(f);
    ItemLine(Printed(f));
  }

  lemma ClassifyPair(f: Field)
    requires LineKey(f.key) && PrintableValue(f)
    ensures Classify("    " + Printed(f)) == Pair(f.key, f.value)
  {
    SplitPrinted(f);
    PrintedTrimmed(f);
    var tail := After(Written(f));
    NotSkipped(f.key, tail, "version");
    NotSkipped(f.key, tail, "exceptions");
    NotItem(f.key, tail);
    assert "version" + [':'] == "version:" && "exceptions" + [':'] == "exceptions:";
    PairLine(Printed(f));
  }

  lemma NotItem(key: string, tail: string)
    requires !("- " <= key)
    ensures !("- " <= key + [':'] + tail)
  {
    var line := key + [':'] + tail;
    assert line[|key|] == ':';
    assert forall i :: 0 <= i < |key| ==> line[i] == key[i];
  }

  lemma NotSkipped(key: string, tail: string, word: string)
    requires ':' !in key && ':' !in word && key != word
    ensures !(word + [':'] <= key + [':'] + tail)
  {
    var line, p := key + [':'] + tail, word + [':'];
    assert line[|key|] == ':' && p[|word|] == ':';
    assert forall i :: 0 <= i < |key| ==> line[i] == key[i] && key[i] in key;
    assert forall i :: 0 <= i < |word| ==> p[i] == word[i] && word[i] in word;
  }

  /** What the printed lines say. */
  function PairLines(rest: seq<Field>): seq<Line> {
    if rest == [] then [] else [Pair(rest[0].key, rest[0].value)] + PairLines(rest[1..])
  }

  function EntryLines(es: seq<Entry>): seq<Line> {
    if es == [] then []
    else [Item(es[0].first.key, es[0].first.value)] + PairLines(es[0].rest) + EntryLines(es[1..])
  }

  lemma ClassifyCons(line: string, lines: seq<string>)
    ensures ClassifyAll([line] + lines) == [Classify(line)] + ClassifyAll(lines)
  {
  }

  lemma {:induction false} ClassifyPrintedRest(rest: seq<Field>)
    requires forall i :: 0 <= i < |rest| ==> LineKey(rest[i].key) && PrintableValue(rest[i])
    ensures ClassifyAll(PrintRest(rest)) == PairLines(rest)
  {
    if rest != [] {
      ClassifyPair(rest[0]);
      ClassifyPrintedRest(rest[1..]);
      ClassifyCons("    " + Printed(rest[0]), PrintRest(rest[1..]));
    }
  }

  lemma {:induction false} ClassifyPrinted(es: seq<Entry>)
    requires forall i :: 0 <= i < |es| ==> Printable(es[i])
    ensures ClassifyAll(Print(es)) == EntryLines(es)
  {
    if es != [] {
      var item, rest := "  - " + Printed(es[0].first), PrintRest(es[0].rest);
      assert Printable(es[0]);
      ClassifyItem(es[0].first);
      ClassifyPrintedRest(es[0].rest);
      ClassifyPrinted(es[1..]);
      ClassifyCons(item, rest);
      ClassifyConcat([item] + rest, Print(es[1..]));
    }
  }

  lemma {:induction false} ReadPairs(r: Record, rest: seq<Field>)
    ensures Body(r, PairLines(rest)) == ToRecord(r, rest)
    ensures Malformed !in PairLines(rest) && Records(PairLines(rest)) == []
    decreases |rest|
  {
    if rest != [] {
      ReadPairs(r[rest[0].key := rest[0].value], rest[1..]);
      assert PairLines(rest)[1..] == PairLines(rest[1..]);
    }
  }

  lemma {:induction false} ReadEntries(es: seq<Entry>)
    ensures ReadAll(EntryLines(es)) == Some(ToRecords(es))
  {
    if es != [] {
      var e := es[0];
      var head := [Item(e.first.key, e.first.value)] + PairLines(e.rest);
      ReadPairs(map[e.first.key := e.first.value], e.rest);
      assert head[1..] == PairLines(e.rest);
      assert head[0] == Item(e.first.key, e.first.value);
      assert Records(head) == [ToRecord(map[e.first.key := e.first.value], e.rest)] + Records(PairLines(e.rest));
      assert Malformed !in head;
      ReadEntries(es[1..]);
      ReadSplit(head, EntryLines(es[1..]));
      assert EntryLines(es) == head + EntryLines(es[1..]);
      assert ReadAll(head).value == [ToRecord(map[e.first.key := e.first.value], e.rest)];
      assert ToRecords(es) == ReadAll(head).value + ToRecords(es[1..]);
    }
  }

  /** Parsing undoes printing: any list of records comes back, each value written as it is, between single quotes or
      between double quotes; between quotes it may contain any characters. */
  lemma ParsePrinted(es: seq<Entry>)
    requires forall i :: 0 <= i < |es| ==> Printable(es[i])
    ensures Parsed(Print(es)) == Some(ToRecords(es))
  {
    ClassifyPrinted(es);
    ReadEntries(es);
  }

  // ---------- the text of the file ----------

  predicate IsBreak(c: char) {
    c == '\n' || c == '\r'
  }

  predicate OneLine(s: string) {
    forall i :: 0 <= i < |s| ==> !IsBreak(s[i])
  }

  function LineEnd(t: string): (k: nat)
    ensures k <= |t| && OneLine(t[..k])
    ensures k < |t| ==> IsBreak(t[k])
  {
    if t == "" || IsBreak(t[0]) then 0
    else
      assert t == [t[0]] + t[1..];
      var k := LineEnd(t[1..]);
      assert t[..k + 1] == [t[0]] + t[1..][..k];
      k + 1
  }

  /** The lines of a text; a line ends at a line feed, a carriage return, or the two together. */
  function Lines(t: string): seq<string>
    decreases |t|
  {
    if t == "" then []
    else
      var k := LineEnd(t);
      if k == |t| then [t]
      else if t[k] == '\r' && k + 1 < |t| && t[k + 1] == '\n' then [t[..k]] + Lines(t[k + 2..])
      else [t[..k]] + Lines(t[k + 1..])
  }

  function JoinLines(lines: seq<string>): string {
    if lines == [] then "" else lines[0] + ['\n'] + JoinLines(lines[1..])
  }

  lemma {:induction false} LinesOfText(lines: seq<string>)
    requires forall i :: 0 <= i < |lines| ==> OneLine(lines[i])
    ensures Lines(JoinLines(lines)) == lines
  {
    if lines != [] {
      var l, rest := lines[0], JoinLines(lines[1..]);
      var t := JoinLines(lines);
      var k := LineEnd(t);
      assert t == l + ['\n'] + rest && t[|l|] == '\n';
      assert forall i :: 0 <= i < |l| ==> t[i] == l[i];
      assert forall i :: 0 <= i < k ==> t[..k][i] == t[i];
      assert k == |l|;
      assert t[..k] == l && t[k + 1..] == rest;
      LinesOfText(lines[1..]);
      assert lines == [l] + lines[1..];
    }
  }

  lemma LineEndAt(l: string, c: char, rest: string)
    requires OneLine(l) && IsBreak(c)
    ensures LineEnd(l + [c] + rest) == |l|
  {
    var t := l + [c] + rest;
    var k := LineEnd(t);
    assert t[|l|] == c && forall i :: 0 <= i < |l| ==> t[i] == l[i];
    assert forall i :: 0 <= i < k ==> t[..k][i] == t[i];
  }

  /** A line ends at a line feed, or at a carriage return, which takes a line feed right after it along; the last line
      need not end. */
  lemma LinesMeaning(l: string, rest: string)
    requires OneLine(l)
    ensures Lines(l + ['\n'] + rest) == [l] + Lines(rest)
    ensures rest == "" || rest[0] != '\n' ==> Lines(l + ['\r'] + rest) == [l] + Lines(rest)
    ensures Lines(l + ['\r'] + (['\n'] + rest)) == [l] + Lines(rest)
    ensures Lines(l) == if l == "" then [] else [l]
  {
    LineEndAt(l, '\n', rest);
    LineEndAt(l, '\r', rest);
    LineEndAt(l, '\r', ['\n'] + rest);
    BrokenAt(l, '\n', rest);
    BrokenAt(l, '\r', rest);
    BrokenAt(l, '\r', ['\n'] + rest);
    assert (l + ['\r'] + (['\n'] + rest))[|l| + 2..] == rest;
    assert LineEnd(l) == |l|;
  }

  lemma BrokenAt(l: string, c: char, rest: string)
    ensures var t := l + [c] + rest;
            t[..|l|] == l && t[|l|] == c && t[|l| + 1..] == rest && |t| == |l| + 1 + |rest|
            && (rest != "" ==> t[|l| + 1] == rest[0])
  {
  }

  predicate OneLineField(f: Field) {
    OneLine(f.key) && OneLine(f.value)
  }

  lemma OneLineConcat(a: string, b: string)
    requires OneLine(a) && OneLine(b)
    ensures OneLine(a + b)
  {
  }

  lemma PrintedOneLine(indent: string, f: Field)
    requires OneLine(indent) && OneLineField(f)
    ensures OneLine(indent + Printed(f))
  {
    assert OneLine(Written(f)) && OneLine(After(Written(f)));
    OneLineConcat(f.key, [':']);
    OneLineConcat(f.key + [':'], After(Written(f)));
    OneLineConcat(indent, Printed(f));
  }

  lemma {:induction false} PrintRestOneLine(rest: seq<Field>)
    requires forall i :: 0 <= i < |rest| ==> OneLineField(rest[i])
    ensures forall i :: 0 <= i < |PrintRest(rest)| ==> OneLine(PrintRest(rest)[i])
  {
    if rest != [] {
      PrintedOneLine("    ", rest[0]);
      PrintRestOneLine(rest[1..]);
    }
  }

  lemma {:induction false} PrintOneLine(es: seq<Entry>)
    requires forall i :: 0 <= i < |es| ==>
               OneLineField(es[i].first) && forall j :: 0 <= j < |es[i].rest| ==> OneLineField(es[i].rest[j])
    ensures forall i :: 0 <= i < |Print(es)| ==> OneLine(Print(es)[i])
  {
    if es != [] {
      PrintedOneLine("  - ", es[0].first);
      PrintRestOneLine(es[0].rest);
      PrintOneLine(es[1..]);
    }
  }

  /** The round trip through a file: printable records whose keys and values contain no line break. */
  lemma ParsePrintedText(es: seq<Entry>)
    requires forall i :: 0 <= i < |es| ==> Printable(es[i])
    requires forall i :: 0 <= i < |es| ==>
               OneLineField(es[i].first) && forall j :: 0 <= j < |es[i].rest| ==> OneLineField(es[i].rest[j])
    ensures Parsed(Lines(JoinLines(Print(es)))) == Some(ToRecords(es))
  {
    PrintOneLine(es);
    LinesOfText(Print(es));
    ParsePrinted(es);
  }
}
