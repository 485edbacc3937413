/** The minimal CSV reader of src/utils.js: `splitCsvLine`, a character-by-character state
  * machine with a quoting flag in which `""` inside quotes stands for one quote character, and
  * `parseCsv`, which turns a whole text into one record per data line keyed by the header. */
module Csv {
  import opened Text

  /** The record of one data line: header name to cell value (a JavaScript object). */
  type Record = map<string, string>

  /** Puts `c` in front of the first field. */
  function PushChar(c: char, fs: seq<string>): seq<string>
    requires |fs| > 0
  {
    [[c] + fs[0]] + fs[1..]
  }

  /** The fields that the rest `s` of a line splits into, when the quoting state on entry is
    * `inQ`. A quote toggles the state, except that inside quotes two quotes in a row give one
    * quote character; a comma outside quotes ends a field; any other character is kept. */
  function Fields(s: string, inQ: bool): (r: seq<string>)
    ensures |r| >= 1
    decreases |s|
  {
    if s == [] then [""]
    else if s[0] == '"' then
      if inQ && |s| > 1 && s[1] == '"' then PushChar('"', Fields(s[2..], inQ))
      else Fields(s[1..], !inQ)
    else if s[0] == ',' && !inQ then [""] + Fields(s[1..], inQ)
    else PushChar(s[0], Fields(s[1..], inQ))
  }

  /** What the loop of `splitCsvLine` knows after reading `line[..i]`: the finished fields,
    * then the current field continued by the rest of the line, then the rest's other fields. */
  ghost predicate SplitInv(line: string, i: nat, inQ: bool, out: seq<string>, cur: string) {
    i <= |line| && Fields(line, false) == out + [cur + Fields(line[i..], inQ)[0]] + Fields(line[i..], inQ)[1..]
  }

  /** Two quotes inside quotes add one quote to the current field. */
  lemma PairStep(line: string, i: nat, inQ: bool, out: seq<string>, cur: string)
    requires SplitInv(line, i, inQ, out, cur)
    requires inQ && i + 1 < |line| && line[i] == '"' && line[i + 1] == '"'
    ensures SplitInv(line, i + 2, inQ, out, cur + ['"'])
  {
    var rest := line[i..];
    assert rest[0] == '"' && rest[1] == '"' && rest[2..] == line[i + 2..];
    var g := Fields(line[i + 2..], inQ);
    assert Fields(rest, inQ) == PushChar('"', g);
    assert cur + Fields(rest, inQ)[0] == (cur + ['"']) + g[0];
  }

  /** Any other quote switches the quoting state. */
  lemma ToggleStep(line: string, i: nat, inQ: bool, out: seq<string>, cur: string)
    requires SplitInv(line, i, inQ, out, cur)
    requires i < |line| && line[i] == '"' && !(inQ && i + 1 < |line| && line[i + 1] == '"')
    ensures SplitInv(line, i + 1, !inQ, out, cur)
  {
    var rest := line[i..];
    assert rest[0] == '"' && rest[1..] == line[i + 1..];
    assert Fields(rest, inQ) == Fields(line[i + 1..], !inQ);
  }

  /** A comma outside quotes ends the current field. */
  lemma CommaStep(line: string, i: nat, inQ: bool, out: seq<string>, cur: string)
    requires SplitInv(line, i, inQ, out, cur)
    requires i < |line| && line[i] == ',' && !inQ
    ensures SplitInv(line, i + 1, inQ, out + [cur], "")
  {
    var rest := line[i..];
    assert rest[0] == ',' && rest[1..] == line[i + 1..];
    var g := Fields(line[i + 1..], inQ);
    assert Fields(rest, inQ) == [""] + g;
    assert cur + Fields(rest, inQ)[0] == cur;
    assert g == [g[0]] + g[1..];
    assert "" + g[0] == g[0];
  }

  /** Any other character is added to the current field. */
  lemma KeepStep(line: string, i: nat, inQ: bool, out: seq<string>, cur: string)
    requires SplitInv(line, i, inQ, out, cur)
    requires i < |line| && line[i] != '"' && (line[i] != ',' || inQ)
    ensures SplitInv(line, i + 1, inQ, out, cur + [line[i]])
  {
    var rest := line[i..];
    assert rest[0] == line[i] && rest[1..] == line[i + 1..];
    var g := Fields(line[i + 1..], inQ);
    assert Fields(rest, inQ) == PushChar(line[i], g);
    assert cur + Fields(rest, inQ)[0] == (cur + [line[i]]) + g[0];
  }

  /** `splitCsvLine(line)`: the loop accumulates finished fields in `out` and the current field
    * in `cur`, skipping the second quote of an escaped pair. */
  method SplitCsvLine(line: string) returns (out: seq<string>)
    ensures out == Fields(line, false)
  {
    out := [];
    var cur := "";
    var inQ := false;
    var i := 0;
    assert line[i..] == line;
    assert Fields(line, false) == [Fields(line, false)[0]] + Fields(line, false)[1..];
    assert cur + Fields(line, false)[0] == Fields(line, false)[0];
    while i < |line|
      invariant SplitInv(line, i, inQ, out, cur)
      decreases |line| - i
    {
      var ch := line[i];
      if ch == '"' {
        if inQ && i + 1 < |line| && line[i + 1] == '"' {
          PairStep(line, i, inQ, out, cur);
          cur := cur + ['"'];
          i := i + 1;
        } else {
          ToggleStep(line, i, inQ, out, cur);
          inQ := !inQ;
        }
      } else if ch == ',' && !inQ {
        CommaStep(line, i, inQ, out, cur);
        out := out + [cur];
        cur := "";
      } else {
        KeepStep(line, i, inQ, out, cur);
        cur := cur + [ch];
      }
      i := i + 1;
    }
    assert line[i..] == [];
    assert cur + "" == cur;
    out := out + [cur];
  }

  /** The commas that stand outside quotes: the quoting state at a position is the parity of the
    * quote characters before it (an escaped pair toggles it twice). */
  function UnquotedCommas(s: string, inQ: bool): nat {
    if s == [] then 0
    else (if s[0] == ',' && !inQ then 1 else 0)
         + UnquotedCommas(s[1..], if s[0] == '"' then !inQ else inQ)
  }

  /** A line splits into one more field than it has commas outside quotes. */
  lemma {:induction false} FieldCount(s: string, inQ: bool)
    ensures |Fields(s, inQ)| == UnquotedCommas(s, inQ) + 1
    decreases |s|
  {
    if s != [] {
      if s[0] == '"' && inQ && |s| > 1 && s[1] == '"' {
        FieldCount(s[2..], inQ);
        assert s[1..][1..] == s[2..];
        assert UnquotedCommas(s[1..], false) == UnquotedCommas(s[2..], true);
      } else if s[0] == '"' {
        FieldCount(s[1..], !inQ);
      } else {
        FieldCount(s[1..], inQ);
      }
    }
  }

  /** On a line without quote characters the splitter is `line.split(",")`. */
  lemma {:induction false} FieldsWithoutQuotes(s: string)
    requires '"' !in s
    ensures Fields(s, false) == SplitOn(s, ',')
  {
    if s != [] {
      FieldsWithoutQuotes(s[1..]);
    }
  }

  /** So joining the fields of a quote-free line with commas gives the line back, and no field
    * holds a comma. */
  lemma JoinFieldsWithoutQuotes(s: string)
    requires '"' !in s
    ensures Join(Fields(s, false), ',') == s
    ensures forall k :: 0 <= k < |Fields(s, false)| ==> ',' !in Fields(s, false)[k]
  {
    FieldsWithoutQuotes(s);
    JoinSplit(s, ',');
  }

  /** Two quote characters next to each other somewhere in `s`. */
  predicate HasQuotePair(s: string) {
    exists k :: 0 <= k < |s| - 1 && s[k] == '"' && s[k + 1] == '"'
  }

  /** A quote reaches a field only from a pair of quotes: on a line without two adjacent quotes
    * every quote character only switches quoting and is dropped. */
  lemma {:induction false} QuoteOnlyFromPair(s: string, inQ: bool)
    requires !HasQuotePair(s)
    ensures forall k :: 0 <= k < |Fields(s, inQ)| ==> '"' !in Fields(s, inQ)[k]
    decreases |s|
  {
    if s != [] {
      assert !HasQuotePair(s[1..]) by {
        forall k | 0 <= k < |s[1..]| - 1
          ensures !(s[1..][k] == '"' && s[1..][k + 1] == '"')
        {
          assert s[1..][k] == s[k + 1] && s[1..][k + 1] == s[k + 2];
        }
      }
      if s[0] == '"' {
        assert !(|s| > 1 && s[1] == '"');
        QuoteOnlyFromPair(s[1..], !inQ);
      } else {
        QuoteOnlyFromPair(s[1..], inQ);
      }
    }
  }

  /** The pairs of quotes the splitter reads while inside quotes: the scan of `Fields`, counting
    * only its escaped pairs. A pair outside quotes toggles the state twice and counts nothing. */
  function PairsInQuotes(s: string, inQ: bool): nat
    decreases |s|
  {
    if s == [] then 0
    else if s[0] == '"' then
      if inQ && |s| > 1 && s[1] == '"' then 1 + PairsInQuotes(s[2..], inQ)
      else PairsInQuotes(s[1..], !inQ)
    else PairsInQuotes(s[1..], inQ)
  }

  /** The number of quote characters in `x`. */
  function QuoteCount(x: string): nat {
    if x == [] then 0 else (if x[0] == '"' then 1 else 0) + QuoteCount(x[1..])
  }

  /** The number of quote characters over all the fields. */
  function QuotesIn(fs: seq<string>): nat {
    if fs == [] then 0 else QuoteCount(fs[0]) + QuotesIn(fs[1..])
  }

  lemma QuotesInPush(c: char, fs: seq<string>)
    requires |fs| > 0
    ensures QuotesIn(PushChar(c, fs)) == (if c == '"' then 1 else 0) + QuotesIn(fs)
  {
    var p := PushChar(c, fs);
    assert p[0][1..] == fs[0];
    assert p[1..] == fs[1..];
  }

  /** Every quote character of every field comes from a pair of quotes read inside quotes: the
    * fields hold exactly as many quotes as the line has such pairs, for every line. */
  lemma {:induction false} QuotesFromPairs(s: string, inQ: bool)
    ensures QuotesIn(Fields(s, inQ)) == PairsInQuotes(s, inQ)
    decreases |s|
  {
    if s != [] {
      if s[0] == '"' {
        if inQ && |s| > 1 && s[1] == '"' {
          QuotesFromPairs(s[2..], inQ);
          QuotesInPush('"', Fields(s[2..], inQ));
        } else {
          QuotesFromPairs(s[1..], !inQ);
        }
      } else if s[0] == ',' && !inQ {
        QuotesFromPairs(s[1..], inQ);
        assert ([""] + Fields(s[1..], inQ))[1..] == Fields(s[1..], inQ);
      } else {
        QuotesFromPairs(s[1..], inQ);
        QuotesInPush(s[0], Fields(s[1..], inQ));
      }
    }
  }

  lemma {:induction false} QuoteCountZero(x: string)
    requires QuoteCount(x) == 0
    ensures '"' !in x
  {
    if x != [] {
      QuoteCountZero(x[1..]);
      assert x == [x[0]] + x[1..];
    }
  }

  lemma {:induction false} QuotesInZero(fs: seq<string>, k: nat)
    requires QuotesIn(fs) == 0 && k < |fs|
    ensures '"' !in fs[k]
  {
    if k == 0 {
      QuoteCountZero(fs[0]);
    } else {
      QuotesInZero(fs[1..], k - 1);
    }
  }

  /** So a line with no pair of quotes read inside quotes (`a""b`, where the pair stands outside
    * quotes, is one) yields no quote character in any field. */
  lemma NoPairNoQuote(s: string, inQ: bool)
    requires PairsInQuotes(s, inQ) == 0
    ensures forall k :: 0 <= k < |Fields(s, inQ)| ==> '"' !in Fields(s, inQ)[k]
  {
    QuotesFromPairs(s, inQ);
    forall k | 0 <= k < |Fields(s, inQ)|
      ensures '"' !in Fields(s, inQ)[k]
    {
      QuotesInZero(Fields(s, inQ), k);
    }
  }

  /** The two cases side by side: `a""b` reads as `ab`, while `"a""b"` reads as `a"b`. */
  lemma PairExamples()
    ensures Fields("a\"\"b", false) == ["ab"]
    ensures Fields("\"a\"\"b\"", false) == ["a\"b"]
  {
    assert "b" == ['b'] + "";
    FieldsKept('b', "", false);
    assert "\"" + "b" == "\"b";
    FieldsToggle("b", true);
    assert "\"" + "\"b" == "\"\"b";
    FieldsToggle("\"b", false);
    assert "a\"\"b" == ['a'] + "\"\"b";
    FieldsKept('a', "\"\"b", false);
    assert ['a'] + "b" == "ab";
    assert PushChar('a', ["b"]) == ["ab"];

    assert "\"" + "" == "\"";
    FieldsToggle("", true);
    assert "b\"" == ['b'] + "\"";
    FieldsKept('b', "\"", true);
    assert "\"\"" + "b\"" == "\"\"b\"";
    FieldsQuotePair("b\"");
    assert PushChar('"', ["b"]) == ["\"b"];
    assert "a\"\"b\"" == ['a'] + "\"\"b\"";
    FieldsKept('a', "\"\"b\"", true);
    assert ['a'] + "\"b" == "a\"b";
    assert PushChar('a', ["\"b"]) == ["a\"b"];
    assert "\"" + "a\"\"b\"" == "\"a\"\"b\"";
    FieldsToggle("a\"\"b\"", false);
  }

  /** The body of a quoted field as a CSV writer emits it: every quote doubled. */
  function Escape(x: string): (r: string)
    ensures |r| >= |x|
  {
    if x == [] then ""
    else if x[0] == '"' then "\"\"" + Escape(x[1..])
    else [x[0]] + Escape(x[1..])
  }

  /** A field quoted as a CSV writer quotes it. */
  function Quote(x: string): string {
    "\"" + Escape(x) + "\""
  }

  /** A row written by a CSV writer that quotes every field. */
  function EncodeRow(xs: seq<string>): string
  {
    if |xs| == 0 then ""
    else if |xs| == 1 then Quote(xs[0])
    else Quote(xs[0]) + "," + EncodeRow(xs[1..])
  }

  lemma FieldsQuotePair(t: string)
    ensures Fields("\"\"" + t, true) == PushChar('"', Fields(t, true))
  {
    assert ("\"\"" + t)[2..] == t;
  }

  lemma FieldsKept(c: char, t: string, inQ: bool)
    requires c != '"' && (c != ',' || inQ)
    ensures Fields([c] + t, inQ) == PushChar(c, Fields(t, inQ))
  {
    assert ([c] + t)[1..] == t;
  }

  lemma FieldsToggle(t: string, inQ: bool)
    requires t == [] || t[0] != '"' || !inQ
    ensures Fields("\"" + t, inQ) == Fields(t, !inQ)
  {
    assert ("\"" + t)[1..] == t;
  }

  /** Inside quotes, an escaped body followed by the closing quote yields the original text
    * as the start of the current field. */
  lemma {:induction false} EscapedBody(x: string, rest: string)
    requires rest == [] || rest[0] != '"'
    ensures Fields(Escape(x) + "\"" + rest, true)
      == [x + Fields(rest, false)[0]] + Fields(rest, false)[1..]
    decreases |x|
  {
    if x == [] {
      ClosingQuote(rest);
    } else {
      EscapedBody(x[1..], rest);
      EscapedStep(x, rest);
    }
  }

  lemma ClosingQuote(rest: string)
    requires rest == [] || rest[0] != '"'
    ensures Fields(Escape([]) + "\"" + rest, true)
      == [[] + Fields(rest, false)[0]] + Fields(rest, false)[1..]
  {
    var f := Fields(rest, false);
    assert Escape([]) + "\"" + rest == "\"" + rest;
    FieldsToggle(rest, true);
    assert [] + f[0] == f[0];
    assert f == [f[0]] + f[1..];
  }

  lemma EscapedStep(x: string, rest: string)
    requires x != []
    requires Fields(Escape(x[1..]) + "\"" + rest, true)
      == [x[1..] + Fields(rest, false)[0]] + Fields(rest, false)[1..]
    ensures Fields(Escape(x) + "\"" + rest, true)
      == [x + Fields(rest, false)[0]] + Fields(rest, false)[1..]
  {
    var f := Fields(rest, false);
    var t := Escape(x[1..]) + "\"" + rest;
    EscapeFront(x, rest);
    FieldsEscaped(x[0], t);
    PushFront(x, f[0], f[1..]);
  }

  /** How a writer escapes one character. */
  function EscapeChar(c: char): string {
    if c == '"' then "\"\"" else [c]
  }

  lemma EscapeFront(x: string, rest: string)
    requires x != []
    ensures Escape(x) + "\"" + rest == EscapeChar(x[0]) + (Escape(x[1..]) + "\"" + rest)
  {
    assert Escape(x) == EscapeChar(x[0]) + Escape(x[1..]);
    Associate(EscapeChar(x[0]), Escape(x[1..]), "\"" + rest);
  }

  /** Inside quotes an escaped character reads back as that character. */
  lemma FieldsEscaped(c: char, t: string)
    ensures Fields(EscapeChar(c) + t, true) == PushChar(c, Fields(t, true))
  {
    if c == '"' {
      FieldsQuotePair(t);
    } else {
      FieldsKept(c, t, true);
    }
  }

  lemma PushFront(x: string, g: string, fs: seq<string>)
    requires x != []
    ensures PushChar(x[0], [x[1..] + g] + fs) == [x + g] + fs
  {
    Associate([x[0]], x[1..], g);
    assert x == [x[0]] + x[1..];
  }

  lemma Associate(a: string, b: string, c: string)
    ensures (a + b) + c == a + (b + c)
  {
  }

  /** A quoted field followed by a comma or the end of the line contributes its text. */
  lemma QuotedField(x: string, rest: string)
    requires rest == [] || rest[0] == ','
    ensures Fields(Quote(x) + rest, false)
      == [x + Fields(rest, false)[0]] + Fields(rest, false)[1..]
  {
    var s := Quote(x) + rest;
    EscapedBody(x, rest);
    assert s == "\"" + (Escape(x) + "\"" + rest);
    assert s[1..] == Escape(x) + "\"" + rest;
    assert Fields(s, false) == Fields(s[1..], true);
  }

  /** Round trip: the splitter gives back every field of a row written by a quoting CSV writer,
    * whatever commas and quotes the fields hold. */
  lemma {:induction false} SplitEncodedRow(xs: seq<string>)
    requires |xs| >= 1
    ensures Fields(EncodeRow(xs), false) == xs
  {
    if |xs| == 1 {
      QuotedField(xs[0], "");
      assert Quote(xs[0]) + "" == EncodeRow(xs);
      assert xs[0] + "" == xs[0];
    } else {
      var tail := EncodeRow(xs[1..]);
      SplitEncodedRow(xs[1..]);
      var rest := "," + tail;
      QuotedField(xs[0], rest);
      assert rest[1..] == tail;
      assert Fields(rest, false) == [""] + xs[1..];
      assert Quote(xs[0]) + rest == EncodeRow(xs);
      assert xs[0] + "" == xs[0];
      assert xs == [xs[0]] + xs[1..];
    }
  }

  /** `text.replace(/\r/g, "").split("\n")`. */
  function Lines(text: string): seq<string> {
    SplitOn(RemoveChar(text, '\r'), '\n')
  }

  /** `.filter(l => l.trim().length)`: the lines that are not all white space. */
  function NonBlank(lines: seq<string>): (r: seq<string>)
    ensures |r| <= |lines|
    ensures forall k :: 0 <= k < |r| ==> Trim(r[k]) != ""
  {
    if lines == [] then []
    else (if Trim(lines[0]) != "" then [lines[0]] else []) + NonBlank(lines[1..])
  }

  /** `(cols[j] ?? "").trim()`. */
  function Cell(cols: seq<string>, j: nat): (r: string)
    ensures NoPadding(r)
  {
    if j < |cols| then Trim(cols[j]) else ""
  }

  /** The cells under the `n` header columns. */
  function CellsOf(cols: seq<string>, n: nat): (r: seq<string>)
    ensures |r| == n
  {
    if n == 0 then [] else CellsOf(cols, n - 1) + [Cell(cols, n - 1)]
  }

  /** The object after the first `n` assignments `obj[keys[j]] = vals[j]`. */
  function Assign(keys: seq<string>, vals: seq<string>, n: nat): Record
    requires n <= |keys| && n <= |vals|
  {
    if n == 0 then map[]
    else Assign(keys, vals, n - 1)[keys[n - 1] := vals[n - 1]]
  }

  /** The record of one data line. */
  function RecordOf(header: seq<string>, cols: seq<string>): Record {
    Assign(header, CellsOf(cols, |header|), |header|)
  }

  /** `fs.map(h => h.trim())`. */
  function TrimAll(fs: seq<string>): (r: seq<string>)
    ensures |r| == |fs|
    ensures forall k :: 0 <= k < |r| ==> r[k] == Trim(fs[k])
  {
    if fs == [] then [] else [Trim(fs[0])] + TrimAll(fs[1..])
  }

  /** The records of the data lines `lines`, in order. */
  function RecordsOf(header: seq<string>, lines: seq<string>): (r: seq<Record>)
    ensures |r| == |lines|
  {
    if lines == [] then []
    else RecordsOf(header, lines[..|lines| - 1]) + [RecordOf(header, Fields(lines[|lines| - 1], false))]
  }

  /** What `parseCsv(text)` returns: no rows for a text without a non-blank line, otherwise one
    * record per non-blank line after the first, keyed by the trimmed fields of the first. */
  function ParsedRows(text: string): seq<Record> {
    var lines := NonBlank(Lines(text));
    if |lines| == 0 then []
    else RecordsOf(TrimAll(Fields(lines[0], false)), lines[1..])
  }

  /** The inner loop of `parseCsv`: `obj[header[j]] = (cols[j] ?? "").trim()` for every j. */
  method BuildObject(header: seq<string>, cols: seq<string>) returns (obj: Record)
    ensures obj == RecordOf(header, cols)
  {
    ghost var cells := CellsOf(cols, |header|);
    obj := map[];
    var j := 0;
    while j < |header|
      invariant 0 <= j <= |header|
      invariant obj == Assign(header, cells, j)
    {
      CellsOfAt(cols, |header|, j);
      obj := obj[header[j] := Cell(cols, j)];
      j := j + 1;
    }
    assert obj == Assign(header, cells, |header|);
  }

  /** `parseCsv(text)`. */
  method ParseCsv(text: string) returns (rows: seq<Record>)
    ensures rows == ParsedRows(text)
  {
    var lines := NonBlank(Lines(text));
    if |lines| == 0 {
      return [];
    }
    var first := SplitCsvLine(lines[0]);
    var header := TrimAll(first);
    rows := ParseDataLines(header, lines[1..]);
  }

  /** The loop of `parseCsv` over the lines after the header, one record per line. */
  method ParseDataLines(header: seq<string>, lines: seq<string>) returns (rows: seq<Record>)
    ensures rows == RecordsOf(header, lines)
  {
    rows := [];
    var i := 0;
    while i < |lines|
      invariant 0 <= i <= |lines|
      invariant rows == RecordsOf(header, lines[..i])
    {
      var cols := SplitCsvLine(lines[i]);
      var obj := BuildObject(header, cols);
      assert lines[..i + 1][..i] == lines[..i];
      rows := rows + [obj];
      i := i + 1;
    }
    assert lines[..i] == lines;
  }

  lemma {:induction false} CellsOfAt(cols: seq<string>, n: nat, j: nat)
    requires j < n
    ensures CellsOf(cols, n)[j] == Cell(cols, j)
  {
    if j < n - 1 {
      CellsOfAt(cols, n - 1, j);
    }
  }

  /** The keys assigned are exactly the first `n` keys. */
  lemma {:induction false} AssignKeys(keys: seq<string>, vals: seq<string>, n: nat)
    requires n <= |keys| && n <= |vals|
    ensures Assign(keys, vals, n).Keys == set j | 0 <= j < n :: keys[j]
  {
    if n > 0 {
      AssignKeys(keys, vals, n - 1);
    }
  }

  /** The last assignment to a key wins. */
  lemma {:induction false} AssignLastWins(keys: seq<string>, vals: seq<string>, n: nat, j: nat)
    requires j < n <= |keys| && n <= |vals|
    requires forall k :: j < k < n ==> keys[k] != keys[j]
    ensures keys[j] in Assign(keys, vals, n) && Assign(keys, vals, n)[keys[j]] == vals[j]
  {
    if j < n - 1 {
      AssignLastWins(keys, vals, n - 1, j);
    }
  }

  /** Every record has exactly the header names as keys; the value under a name is the trimmed
    * cell of the last column of that name, or "" when the line has fewer cells; cells beyond the
    * header are dropped. */
  lemma RecordShape(header: seq<string>, cols: seq<string>, j: nat)
    requires j < |header|
    requires forall k :: j < k < |header| ==> header[k] != header[j]
    ensures RecordOf(header, cols).Keys == set k | 0 <= k < |header| :: header[k]
    ensures header[j] in RecordOf(header, cols)
    ensures RecordOf(header, cols)[header[j]] == (if j < |cols| then Trim(cols[j]) else "")
    ensures NoPadding(RecordOf(header, cols)[header[j]])
  {
    var cells := CellsOf(cols, |header|);
    AssignKeys(header, cells, |header|);
    AssignLastWins(header, cells, |header|, j);
    CellsOfAt(cols, |header|, j);
  }

  /** A text that is empty or all white space parses to no rows. */
  lemma BlankTextNoRows(text: string)
    requires AllSpace(text)
    ensures ParsedRows(text) == []
  {
    var stripped := RemoveChar(text, '\r');
    var lines := SplitOn(stripped, '\n');
    forall k | 0 <= k < |lines| ensures Trim(lines[k]) == "" {
      forall i | 0 <= i < |lines[k]| ensures IsSpace(lines[k][i]) {
        SplitChars(stripped, '\n', k, i);
        var c := lines[k][i];
        assert c in stripped;
        var i' :| 0 <= i' < |stripped| && stripped[i'] == c;
        RemoveCharChars(text, '\r', i');
      }
      TrimEmptyIffAllSpace(lines[k]);
    }
    NonBlankAllBlank(lines);
  }

  lemma {:induction false} NonBlankAllBlank(lines: seq<string>)
    requires forall k :: 0 <= k < |lines| ==> Trim(lines[k]) == ""
    ensures NonBlank(lines) == []
  {
    if lines != [] {
      NonBlankAllBlank(lines[1..]);
    }
  }

  /** The text with every line feed written as CR LF. */
  function ToCrlf(text: string): string {
    if text == [] then ""
    else (if text[0] == '\n' then "\r\n" else [text[0]]) + ToCrlf(text[1..])
  }

  lemma {:induction false} CrlfRemoved(text: string)
    ensures RemoveChar(ToCrlf(text), '\r') == RemoveChar(text, '\r')
  {
    if text != [] {
      CrlfRemoved(text[1..]);
      var head := if text[0] == '\n' then "\r\n" else [text[0]];
      RemoveCharAppend(head, ToCrlf(text[1..]), '\r');
      assert text == [text[0]] + text[1..];
      RemoveCharAppend([text[0]], text[1..], '\r');
      if text[0] == '\n' {
        assert RemoveChar(head, '\r') == "\n";
      }
    }
  }

  /** Carriage returns are ignored: CR LF and LF texts parse to the same rows, and so do a text
    * and the same text with all its CR characters removed. */
  lemma CrlfSameRows(text: string)
    ensures ParsedRows(ToCrlf(text)) == ParsedRows(text)
    ensures ParsedRows(RemoveChar(text, '\r')) == ParsedRows(text)
  {
    CrlfRemoved(text);
    RemoveCharTwice(text, '\r');
  }

  lemma {:induction false} RemoveCharTwice(s: string, c: char)
    ensures RemoveChar(RemoveChar(s, c), c) == RemoveChar(s, c)
  {
    if s != [] {
      RemoveCharTwice(s[1..], c);
      RemoveCharAppend(if s[0] == c then "" else [s[0]], RemoveChar(s[1..], c), c);
    }
  }

  lemma {:induction false} RecordsOfAt(header: seq<string>, lines: seq<string>, i: nat)
    requires i < |lines|
    ensures RecordsOf(header, lines)[i] == RecordOf(header, Fields(lines[i], false))
  {
    if i < |lines| - 1 {
      RecordsOfAt(header, lines[..|lines| - 1], i);
      assert lines[..|lines| - 1][i] == lines[i];
    }
  }

  /** `parseCsv` yields no rows for a text without a non-blank line, and otherwise one row per
    * non-blank line after the first. */
  lemma ParsedRowCount(text: string)
    ensures NonBlank(Lines(text)) == [] ==> ParsedRows(text) == []
    ensures NonBlank(Lines(text)) != [] ==> |ParsedRows(text)| == |NonBlank(Lines(text))| - 1
  {
  }

  /** `parseCsv` yields one row per non-blank line after the header line; row i is the record of
    * non-blank line i + 1 under the trimmed fields of the first non-blank line. */
  lemma ParsedRowAt(text: string, i: nat)
    requires i < |ParsedRows(text)|
    ensures |NonBlank(Lines(text))| == |ParsedRows(text)| + 1
    ensures ParsedRows(text)[i]
      == RecordOf(TrimAll(Fields(NonBlank(Lines(text))[0], false)), Fields(NonBlank(Lines(text))[i + 1], false))
  {
    var lines := NonBlank(Lines(text));
    RecordsOfAt(TrimAll(Fields(lines[0], false)), lines[1..], i);
    assert lines[1..][i] == lines[i + 1];
  }
}
