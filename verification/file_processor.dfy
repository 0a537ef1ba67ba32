/** `FileProcessor.load_to_data_parts` without the file system: the text of
    the configuration file is cut into lines, comments and blank lines are
    dropped, and every remaining line `name,lower_index,upper_index` becomes
    a field or a diagnostic. */
module FileProcessor {
  import opened Results
  import opened PyText
  import opened PyInt
  import opened DataParts

  /** The comment marker of the configuration format. */
  const CommentMarker: char := ';'

  /** The token separator of the configuration format. */
  const Separator: char := ','

  /** A line the loader tries to convert: not blank once stripped, and not
      starting with the comment marker. */
  predicate IsDataLine(line: string) {
    var t := Strip(line);
    t != [] && t[0] != CommentMarker
  }

  /** The filtering list comprehension: the data lines, stripped, in order. */
  function KeptLines(lines: seq<string>): (r: seq<string>)
    ensures |r| <= |lines|
    ensures forall k :: 0 <= k < |r| ==> r[k] != [] && r[k][0] != CommentMarker && IsStripped(r[k])
    decreases |lines|
  {
    if |lines| == 0 then []
    else (if IsDataLine(lines[0]) then [Strip(lines[0])] else []) + KeptLines(lines[1..])
  }

  /** Filtering works line by line: the kept lines of two blocks are the kept
      lines of each, in the same order. */
  lemma {:induction false} KeptLinesAppend(a: seq<string>, b: seq<string>)
    ensures KeptLines(a + b) == KeptLines(a) + KeptLines(b)
    decreases |a|
  {
    if |a| == 0 {
      assert a + b == b;
    } else {
      assert (a + b)[1..] == a[1..] + b;
      assert (a + b)[0] == a[0];
      KeptLinesAppend(a[1..], b);
    }
  }

  /** A single line is kept, stripped, exactly when it is a data line. */
  lemma KeptLinesOne(line: string)
    ensures KeptLines([line]) == if IsDataLine(line) then [Strip(line)] else []
  {
    assert [line][1..] == [];
  }

  /** A string is kept exactly when some line is a data line that strips to
      it. */
  lemma {:induction false} KeptLinesHas(lines: seq<string>, s: string)
    ensures s in KeptLines(lines) <==>
              exists k :: 0 <= k < |lines| && IsDataLine(lines[k]) && Strip(lines[k]) == s
    decreases |lines|
  {
    if |lines| > 0 {
      var tail := lines[1..];
      KeptLinesHas(tail, s);
      if s in KeptLines(tail) {
        var k :| 0 <= k < |tail| && IsDataLine(tail[k]) && Strip(tail[k]) == s;
        assert lines[k + 1] == tail[k];
      }
      if exists k :: 0 <= k < |lines| && IsDataLine(lines[k]) && Strip(lines[k]) == s {
        var k :| 0 <= k < |lines| && IsDataLine(lines[k]) && Strip(lines[k]) == s;
        if k > 0 {
          assert tail[k - 1] == lines[k];
        }
      }
    } else {
      assert KeptLines(lines) == [];
    }
  }

  /** Lines that are already data lines in stripped form all survive the
      filter unchanged. */
  lemma {:induction false} KeptLinesAllData(lines: seq<string>)
    requires forall k :: 0 <= k < |lines| ==> lines[k] != [] && lines[k][0] != CommentMarker && IsStripped(lines[k])
    ensures KeptLines(lines) == lines
    decreases |lines|
  {
    if |lines| > 0 {
      StripStripped(lines[0]);
      KeptLinesAllData(lines[1..]);
      assert [lines[0]] + lines[1..] == lines;
    }
  }

  /** Lines that start with the comment marker are all dropped. */
  lemma {:induction false} KeptLinesComments(lines: seq<string>)
    requires forall k :: 0 <= k < |lines| ==> lines[k] != [] && lines[k][0] == CommentMarker
    ensures KeptLines(lines) == []
    decreases |lines|
  {
    if |lines| > 0 {
      StripKeepsFirst(lines[0]);
      KeptLinesComments(lines[1..]);
    }
  }

  /** The newline `readlines()` keeps at the end of each line is whitespace,
      so filtering the lines of `readlines()` gives what filtering the pieces
      of `text.split('\n')` gives. */
  lemma {:induction false} KeptReadLines(text: string)
    ensures KeptLines(ReadLines(text)) == KeptLines(Split(text, '\n'))
    decreases |text|
  {
    if '\n' in text {
      var i := FirstIndex(text, '\n');
      var a, rest := text[..i], text[i + 1..];
      assert text == a + "\n" + rest;
      calc {
        KeptLines(ReadLines(text));
        { ReadLinesCons(a, rest); }
        KeptLines([a + "\n"] + ReadLines(rest));
        { KeptLinesAppend([a + "\n"], ReadLines(rest)); }
        KeptLines([a + "\n"]) + KeptLines(ReadLines(rest));
        { KeptLinesNewline(a); KeptReadLines(rest); }
        KeptLines([a]) + KeptLines(Split(rest, '\n'));
        { KeptLinesAppend([a], Split(rest, '\n')); }
        KeptLines([a] + Split(rest, '\n'));
        { SplitCons(a, '\n', rest); }
        KeptLines(Split(text, '\n'));
      }
    } else {
      ReadLinesLast(text);
      SplitNone(text, '\n');
      KeptLinesOne(text);
    }
  }

  /** The newline at the end of a line makes no difference to the filter. */
  lemma KeptLinesNewline(a: string)
    ensures KeptLines([a + "\n"]) == KeptLines([a])
  {
    StripIgnoresPadding([], a, "\n");
    assert [] + a + "\n" == a + "\n";
    KeptLinesOne(a + "\n");
    KeptLinesOne(a);
  }

  /** The three values of a configuration line before construction. */
  datatype FieldLine = FieldLine(name: string, lowerBounds: int, upperBounds: int)

  /** Why a line could not be converted, in the order Python evaluates
      `DataPart(parts[0], int(parts[1]), int(parts[2]))`: the `IndexError` of
      a missing token, or the `ValueError` of a token `int()` rejects. */
  datatype ParseError = MissingToken(index: nat) | NotAnInteger(index: nat, token: string)

  /** Splitting a kept line at the commas and reading tokens 1 and 2 as
      integers; token 0 is the name, verbatim, and tokens past the third are
      never looked at. A line converts exactly when it has at least three
      tokens and tokens 1 and 2 are integers; the field then holds token 0,
      which has no comma, and the two values `int()` reads. */
  function ParseLine(line: string): (r: Result<FieldLine, ParseError>)
    ensures var tokens := Split(line, Separator);
            && (r.Ok? <==> |tokens| >= 3 && ParseInt(tokens[1]).Some? && ParseInt(tokens[2]).Some?)
            && (r.Ok? ==>
                  && r.value.name == tokens[0] && Separator !in r.value.name
                  && ParseInt(tokens[1]) == Some(r.value.lowerBounds)
                  && ParseInt(tokens[2]) == Some(r.value.upperBounds))
  {
    var tokens := Split(line, Separator);
    SplitPieces(line, Separator);
    if |tokens| < 2 then Err(MissingToken(1))
    else match ParseInt(tokens[1])
      case None => Err(NotAnInteger(1, tokens[1]))
      case Some(lowerBounds) =>
        if |tokens| < 3 then Err(MissingToken(2))
        else match ParseInt(tokens[2])
          case None => Err(NotAnInteger(2, tokens[2]))
          case Some(upperBounds) => Ok(FieldLine(tokens[0], lowerBounds, upperBounds))
  }

  /** The failures follow Python's evaluation order, token 1 before token 2
      and indexing before `int()`: a failure names token 1 or token 2; a
      missing token is the first one the line lacks, a rejected one is
      present and `int()` refuses it, and every token before the one named
      was read as an integer. */
  lemma ParseLineErrors(line: string)
    ensures var tokens := Split(line, Separator);
            var r := ParseLine(line);
            r.Err? ==>
              && 1 <= r.error.index <= 2
              && (r.error.MissingToken? ==> |tokens| == r.error.index)
              && (r.error.NotAnInteger? ==>
                    && r.error.index < |tokens|
                    && r.error.token == tokens[r.error.index]
                    && ParseInt(r.error.token).None?)
              && (forall j :: 1 <= j < r.error.index ==> j < |tokens| && ParseInt(tokens[j]).Some?)
  {
  }

  /** A token 1 that starts with an information separator is refused by
      `int()`, although `strip()` would remove that character. */
  lemma InfoSeparatorRejected()
    ensures ParseLine("a,\U{1C}1,2") == Err(NotAnInteger(1, "\U{1C}1"))
  {
    SplitNone("2", Separator);
    SplitCons("\U{1C}1", Separator, "2");
    SplitCons("a", Separator, "\U{1C}1,2");
    assert "a" + [Separator] + "\U{1C}1,2" == "a,\U{1C}1,2";
    assert "\U{1C}1" + [Separator] + "2" == "\U{1C}1,2";
    assert IsInfoSeparator("\U{1C}1"[0]);
  }

  /** A line of three comma-free tokens: the name is the first token exactly
      as written (trailing spaces included), and the failures come in
      evaluation order, first token 1, then token 2. */
  lemma ParseThreeTokens(name: string, lower: string, upper: string)
    requires Separator !in name && Separator !in lower && Separator !in upper
    ensures ParseLine(name + [Separator] + lower + [Separator] + upper)
            == if ParseInt(lower).None? then Err(NotAnInteger(1, lower))
               else if ParseInt(upper).None? then Err(NotAnInteger(2, upper))
               else Ok(FieldLine(name, ParseInt(lower).value, ParseInt(upper).value))
  {
    SplitNone(upper, Separator);
    SplitCons(lower, Separator, upper);
    SplitCons(name, Separator, lower + [Separator] + upper);
    assert name + [Separator] + lower + [Separator] + upper
        == name + [Separator] + (lower + [Separator] + upper);
  }

  /** Everything after a third comma is ignored. */
  lemma ParseLineIgnoresExtra(name: string, lower: string, upper: string, rest: string)
    requires Separator !in name && Separator !in lower && Separator !in upper
    ensures ParseLine(name + [Separator] + lower + [Separator] + upper + [Separator] + rest)
            == ParseLine(name + [Separator] + lower + [Separator] + upper)
  {
    SplitNone(upper, Separator);
    SplitCons(upper, Separator, rest);
    SplitCons(lower, Separator, upper + [Separator] + rest);
    SplitCons(name, Separator, lower + [Separator] + (upper + [Separator] + rest));
    assert name + [Separator] + lower + [Separator] + upper + [Separator] + rest
        == name + [Separator] + (lower + [Separator] + (upper + [Separator] + rest));
    SplitCons(lower, Separator, upper);
    SplitCons(name, Separator, lower + [Separator] + upper);
    assert name + [Separator] + lower + [Separator] + upper
        == name + [Separator] + (lower + [Separator] + upper);
  }

  /** A line with fewer than two commas never yields a field; with none at
      all it fails on token 1, with one it fails on token 1's value or on
      the missing token 2. */
  lemma ParseLineTooFewTokens(line: string)
    requires |Split(line, Separator)| < 3
    ensures ParseLine(line).Err?
    ensures |Split(line, Separator)| == 1 ==> ParseLine(line) == Err(MissingToken(1))
  {
  }

  /** A part written back as a configuration line, with `pad` after each
      comma (the default file uses one space). */
  function RenderLine(p: DataPart, pad: string): string {
    p.name + [Separator] + (pad + IntToString(p.lower)) + [Separator] + (pad + IntToString(p.upper))
  }

  lemma NoSeparatorInNumber(n: int)
    ensures Separator !in IntToString(n)
    ensures '\n' !in IntToString(n)
    ensures IntToString(n) != [] && IsDigit(IntToString(n)[|IntToString(n)| - 1])
  {
    var d := NatToDigits(if n < 0 then -n else n);
    NatToDigitsValue(if n < 0 then -n else n);
    if n < 0 {
      assert IntToString(n) == "-" + d;
      assert IntToString(n)[|IntToString(n)| - 1] == d[|d| - 1];
    }
  }

  /** Parsing a written-back line gives back the name and both bounds. */
  lemma ParseRenderLine(p: DataPart, pad: string)
    requires Separator !in p.name && AllIntSpace(pad)
    ensures ParseLine(RenderLine(p, pad)) == Ok(FieldLine(p.name, p.lower, p.upper))
  {
    var lo, hi := pad + IntToString(p.lower), pad + IntToString(p.upper);
    assert Separator !in lo && Separator !in hi by {
      NoSeparatorInNumber(p.lower);
      NoSeparatorInNumber(p.upper);
      assert Separator !in pad;
    }
    assert ParseInt(lo) == Some(p.lower) by {
      ParseIntToString(pad, p.lower, []);
      assert pad + IntToString(p.lower) + [] == lo;
    }
    assert ParseInt(hi) == Some(p.upper) by {
      ParseIntToString(pad, p.upper, []);
      assert pad + IntToString(p.upper) + [] == hi;
    }
    assert RenderLine(p, pad) == p.name + [Separator] + lo + [Separator] + hi;
    ParseThreeTokens(p.name, lo, hi);
  }

  /** The part `DataPart(name, lower, upper)` constructs from a converted
      line. */
  function Build(f: FieldLine): (p: DataPart)
    ensures Ordered(p) && p.name == f.name
  {
    NewDataPart(f.name, f.lowerBounds, f.upperBounds)
  }

  /** One diagnostic of the loader: the offending kept line and the cause. */
  datatype LineError = LineError(line: string, cause: ParseError)

  /** What loading produces: the parts in file order, one diagnostic per
      rejected line, and the names of the parts whose bounds were swapped. */
  datatype LoadResult = LoadResult(parts: seq<DataPart>, errors: seq<LineError>, notices: seq<string>)

  /** The conversion outcome of every kept line, in order. */
  function ParseLines(lines: seq<string>): (rs: seq<Result<FieldLine, ParseError>>)
    ensures |rs| == |lines|
  {
    seq(|lines|, k requires 0 <= k < |lines| => ParseLine(lines[k]))
  }

  /** One iteration of the `try`/`except` loop: a converted line appends its
      part, and a notice when its bounds were swapped; a rejected line
      appends its diagnostic. */
  function Step(r: LoadResult, line: string, outcome: Result<FieldLine, ParseError>): (r': LoadResult)
    ensures |r'.parts| + |r'.errors| == |r.parts| + |r.errors| + 1
    ensures |r'.notices| - |r.notices| <= |r'.parts| - |r.parts|
  {
    match outcome
    case Ok(f) =>
      LoadResult(r.parts + [Build(f)], r.errors,
                 r.notices + (if NeedsSwap(f.lowerBounds, f.upperBounds) then [f.name] else []))
    case Err(e) =>
      LoadResult(r.parts, r.errors + [LineError(line, e)], r.notices)
  }

  /** The `try`/`except` loop over the kept lines, given each line's
      conversion outcome. */
  function Collect(lines: seq<string>, outcomes: seq<Result<FieldLine, ParseError>>): (r: LoadResult)
    requires |outcomes| == |lines|
    ensures |r.parts| + |r.errors| == |lines|
    ensures |r.notices| <= |r.parts|
    ensures forall k :: 0 <= k < |r.parts| ==> Ordered(r.parts[k])
    decreases |lines|
  {
    if |lines| == 0 then LoadResult([], [], [])
    else
      var n := |lines| - 1;
      Step(Collect(lines[..n], outcomes[..n]), lines[n], outcomes[n])
  }

  /** Collecting one more line is one more step of the loop. */
  lemma CollectPrefix(lines: seq<string>, outcomes: seq<Result<FieldLine, ParseError>>, i: nat)
    requires |outcomes| == |lines| && i < |lines|
    ensures Collect(lines[..i + 1], outcomes[..i + 1]) == Step(Collect(lines[..i], outcomes[..i]), lines[i], outcomes[i])
  {
    assert lines[..i + 1][..i] == lines[..i];
    assert outcomes[..i + 1][..i] == outcomes[..i];
  }

  /** Converting and collecting every kept line. */
  function ParseAll(lines: seq<string>): (r: LoadResult)
    ensures |r.parts| + |r.errors| == |lines|
    ensures |r.notices| <= |r.parts|
  {
    Collect(lines, ParseLines(lines))
  }

  /** Results of two blocks of lines, one after the other. */
  function Combine(x: LoadResult, y: LoadResult): LoadResult {
    LoadResult(x.parts + y.parts, x.errors + y.errors, x.notices + y.notices)
  }

  lemma CombineStep(x: LoadResult, y: LoadResult, line: string, outcome: Result<FieldLine, ParseError>)
    ensures Combine(x, Step(y, line, outcome)) == Step(Combine(x, y), line, outcome)
  {
    match outcome
    case Ok(f) =>
      assert x.parts + (y.parts + [Build(f)]) == (x.parts + y.parts) + [Build(f)];
      var n := if NeedsSwap(f.lowerBounds, f.upperBounds) then [f.name] else [];
      assert x.notices + (y.notices + n) == (x.notices + y.notices) + n;
    case Err(e) =>
      assert x.errors + (y.errors + [LineError(line, e)]) == (x.errors + y.errors) + [LineError(line, e)];
  }

  /** Collecting is line by line: each line contributes on its own. */
  lemma {:induction false} CollectAppend(a: seq<string>, oa: seq<Result<FieldLine, ParseError>>,
                                         b: seq<string>, ob: seq<Result<FieldLine, ParseError>>)
    requires |oa| == |a| && |ob| == |b|
    ensures Collect(a + b, oa + ob) == Combine(Collect(a, oa), Collect(b, ob))
    decreases |b|
  {
    if |b| == 0 {
      assert a + b == a && oa + ob == oa;
      var x := Collect(a, oa);
      assert x.parts + [] == x.parts && x.errors + [] == x.errors && x.notices + [] == x.notices;
    } else {
      var n := |b| - 1;
      assert (a + b)[..|a| + n] == a + b[..n];
      assert (oa + ob)[..|a| + n] == oa + ob[..n];
      assert (a + b)[|a| + n] == b[n];
      assert (oa + ob)[|a| + n] == ob[n];
      CollectAppend(a, oa, b[..n], ob[..n]);
      CombineStep(Collect(a, oa), Collect(b[..n], ob[..n]), b[n], ob[n]);
    }
  }

  /** Loading is line by line: each line contributes on its own, so a
      malformed line never removes or reorders the fields of the others. */
  lemma ParseAllAppend(a: seq<string>, b: seq<string>)
    ensures ParseAll(a + b) == Combine(ParseAll(a), ParseAll(b))
  {
    assert ParseLines(a + b) == ParseLines(a) + ParseLines(b);
    CollectAppend(a, ParseLines(a), b, ParseLines(b));
  }

  /** A single line loads as its part or as its diagnostic. */
  lemma ParseAllOne(line: string)
    ensures ParseAll([line]) == match ParseLine(line)
                                case Ok(f) => LoadResult([Build(f)], [], if NeedsSwap(f.lowerBounds, f.upperBounds) then [f.name] else [])
                                case Err(e) => LoadResult([], [LineError(line, e)], [])
  {
    assert ParseLines([line]) == [ParseLine(line)];
    assert [line][..0] == [];
  }

  /** Every diagnostic names a line and an outcome at the same position,
      and that outcome is the failure the diagnostic reports. */
  lemma {:induction false} CollectErrors(lines: seq<string>, outcomes: seq<Result<FieldLine, ParseError>>)
    requires |outcomes| == |lines|
    ensures forall k :: 0 <= k < |Collect(lines, outcomes).errors| ==>
              exists j :: 0 <= j < |lines| && lines[j] == Collect(lines, outcomes).errors[k].line
                          && outcomes[j] == Err(Collect(lines, outcomes).errors[k].cause)
    decreases |lines|
  {
    if |lines| > 0 {
      var n := |lines| - 1;
      CollectErrors(lines[..n], outcomes[..n]);
      var prev := Collect(lines[..n], outcomes[..n]);
      var r := Collect(lines, outcomes);
      assert r == Step(prev, lines[n], outcomes[n]);
      forall k | 0 <= k < |r.errors|
        ensures exists j :: 0 <= j < |lines| && lines[j] == r.errors[k].line && outcomes[j] == Err(r.errors[k].cause)
      {
        if k < |prev.errors| {
          assert r.errors[k] == prev.errors[k];
          var j :| 0 <= j < n && lines[..n][j] == prev.errors[k].line && outcomes[..n][j] == Err(prev.errors[k].cause);
          assert lines[j] == lines[..n][j] && outcomes[j] == outcomes[..n][j];
          assert 0 <= j < |lines| && lines[j] == r.errors[k].line && outcomes[j] == Err(r.errors[k].cause);
        } else {
          assert outcomes[n].Err? && r.errors[k] == LineError(lines[n], outcomes[n].error);
          assert 0 <= n < |lines| && lines[n] == r.errors[k].line && outcomes[n] == Err(r.errors[k].cause);
        }
      }
    } else {
      assert Collect(lines, outcomes).errors == [];
    }
  }

  /** Every diagnostic names a line of the input and the reason that line
      fails to parse. */
  lemma ParseAllErrors(lines: seq<string>)
    ensures forall k :: 0 <= k < |ParseAll(lines).errors| ==>
              var e := ParseAll(lines).errors[k];
              e.line in lines && ParseLine(e.line) == Err(e.cause)
  {
    CollectErrors(lines, ParseLines(lines));
  }

  /** Inserting a line that does not parse anywhere adds exactly one
      diagnostic, for that line, and leaves the fields and notices as they
      were. */
  lemma MalformedLineHarmless(a: seq<string>, bad: string, b: seq<string>)
    requires ParseLine(bad).Err?
    ensures ParseAll(a + [bad] + b).parts == ParseAll(a + b).parts
    ensures ParseAll(a + [bad] + b).notices == ParseAll(a + b).notices
    ensures ParseAll(a + [bad] + b).errors
            == ParseAll(a).errors + [LineError(bad, ParseLine(bad).error)] + ParseAll(b).errors
  {
    ParseAllAppend(a + [bad], b);
    ParseAllAppend(a, [bad]);
    ParseAllAppend(a, b);
    ParseAllOne(bad);
    var x, y := ParseAll(a), ParseAll(b);
    var e := LineError(bad, ParseLine(bad).error);
    assert ParseAll([bad]) == LoadResult([], [e], []);
    assert ParseAll(a + [bad]) == LoadResult(x.parts, x.errors + [e], x.notices) by {
      assert x.parts + [] == x.parts && x.notices + [] == x.notices;
    }
  }

  /** `load_to_data_parts` on the text of the file. */
  function Load(text: string): (r: LoadResult)
    ensures |r.parts| + |r.errors| == |KeptLines(ReadLines(text))|
    ensures forall k :: 0 <= k < |r.parts| ==> Ordered(r.parts[k])
  {
    ParseAll(KeptLines(ReadLines(text)))
  }

  /** The loader as the source writes it: filter, then convert. */
  method LoadToDataParts(text: string) returns (r: LoadResult)
    ensures r == Load(text)
    ensures |r.parts| + |r.errors| == |KeptLines(ReadLines(text))|
  {
    var lineData := KeptLines(ReadLines(text));
    r := ConvertLines(lineData);
  }

  /** The `for`/`try` loop of the loader: one pass over the kept lines that
      appends a part, and a notice when its bounds were swapped, or records a
      diagnostic. */
  method ConvertLines(lineData: seq<string>) returns (r: LoadResult)
    ensures r == ParseAll(lineData)
    ensures forall k :: 0 <= k < |r.errors| ==> r.errors[k].line in lineData
  {
    ghost var outcomes := ParseLines(lineData);
    r := LoadResult([], [], []);
    for i := 0 to |lineData|
      invariant r == Collect(lineData[..i], outcomes[..i])
    {
      r := ConvertLine(r, lineData[i]);
      CollectPrefix(lineData, outcomes, i);
    }
    assert lineData[..|lineData|] == lineData;
    assert outcomes[..|outcomes|] == outcomes;
    ParseAllErrors(lineData);
  }

  /** The body of the `try`/`except` loop for one line. */
  method ConvertLine(before: LoadResult, line: string) returns (r: LoadResult)
    ensures r == Step(before, line, ParseLine(line))
  {
    var parts, errors, notices := before.parts, before.errors, before.notices;
    match ParseLine(line) {
      case Ok(f) =>
        parts := parts + [NewDataPart(f.name, f.lowerBounds, f.upperBounds)];
        if f.lowerBounds > f.upperBounds {
          notices := notices + [f.name];
        }
      case Err(e) =>
        errors := errors + [LineError(line, e)];
    }
    r := LoadResult(parts, errors, notices);
  }

  /** What may stand after each comma of a written line: whitespace that
      `int()` skips and that does not end the line. */
  predicate Padding(pad: string) {
    AllIntSpace(pad) && '\n' !in pad && '\r' !in pad
  }

  /** A part that can be written to the file and read back as itself: its
      name holds no comma, line feed or carriage return, and does not begin
      with whitespace or the comment marker, and its bounds are ordered. */
  predicate Writable(p: DataPart) {
    && Separator !in p.name
    && '\n' !in p.name
    && '\r' !in p.name
    && (p.name == [] || (!IsSpace(p.name[0]) && p.name[0] != CommentMarker))
    && Ordered(p)
  }

  /** The lines of a configuration file holding `parts`, one per part. */
  function RenderAll(parts: seq<DataPart>, pad: string): (lines: seq<string>)
    ensures |lines| == |parts|
  {
    seq(|parts|, k requires 0 <= k < |parts| => RenderLine(parts[k], pad))
  }

  lemma RenderLineShape(p: DataPart, pad: string)
    requires Writable(p) && Padding(pad)
    ensures var l := RenderLine(p, pad);
            l != [] && l[0] != CommentMarker && IsStripped(l) && '\n' !in l
  {
    NoSeparatorInNumber(p.lower);
    NoSeparatorInNumber(p.upper);
    var l := RenderLine(p, pad);
    var hi := IntToString(p.upper);
    assert l[|l| - 1] == hi[|hi| - 1];
    if p.name == [] {
      assert l[0] == Separator;
    } else {
      assert l[0] == p.name[0];
    }
  }

  /** Lines whose outcomes are all conversions of ordered bounds collect as
      exactly those parts, with no diagnostic and no notice. */
  lemma {:induction false} CollectFields(lines: seq<string>, outcomes: seq<Result<FieldLine, ParseError>>,
                                         parts: seq<DataPart>)
    requires |outcomes| == |lines| == |parts|
    requires forall k :: 0 <= k < |parts| ==>
               Ordered(parts[k]) && outcomes[k] == Ok(FieldLine(parts[k].name, parts[k].lower, parts[k].upper))
    ensures Collect(lines, outcomes) == LoadResult(parts, [], [])
    decreases |parts|
  {
    if |parts| > 0 {
      var n := |parts| - 1;
      var p := parts[n];
      CollectFields(lines[..n], outcomes[..n], parts[..n]);
      assert Build(FieldLine(p.name, p.lower, p.upper)) == p;
      assert parts[..n] + [p] == parts;
    }
  }

  /** Rendered lines of writable parts hold no newline and pass the filter
      unchanged. */
  lemma KeptRendered(parts: seq<DataPart>, pad: string)
    requires forall k :: 0 <= k < |parts| ==> Writable(parts[k])
    requires Padding(pad)
    ensures forall k :: 0 <= k < |parts| ==> '\n' !in RenderAll(parts, pad)[k]
    ensures KeptLines(RenderAll(parts, pad)) == RenderAll(parts, pad)
  {
    var lines := RenderAll(parts, pad);
    forall k | 0 <= k < |lines|
      ensures lines[k] != [] && lines[k][0] != CommentMarker && IsStripped(lines[k]) && '\n' !in lines[k]
    {
      RenderLineShape(parts[k], pad);
    }
    KeptLinesAllData(lines);
  }

  /** Rendered lines of writable parts load as exactly those parts, in the
      same order, with no diagnostic and no notice. */
  lemma ParseAllRendered(parts: seq<DataPart>, pad: string)
    requires forall k :: 0 <= k < |parts| ==> Writable(parts[k])
    requires Padding(pad)
    ensures ParseAll(RenderAll(parts, pad)) == LoadResult(parts, [], [])
  {
    var lines := RenderAll(parts, pad);
    var outcomes := ParseLines(lines);
    forall k | 0 <= k < |parts|
      ensures outcomes[k] == Ok(FieldLine(parts[k].name, parts[k].lower, parts[k].upper))
    {
      ParseRenderLine(parts[k], pad);
    }
    CollectFields(lines, outcomes, parts);
  }

  /** Round trip through the file format: writing ordered parts one per line
      and loading that text gives back the same parts, in the same order,
      with nothing reported. */
  lemma LoadRendered(parts: seq<DataPart>, pad: string)
    requires forall k :: 0 <= k < |parts| ==> Writable(parts[k])
    requires Padding(pad)
    ensures Load(Join(RenderAll(parts, pad), '\n')) == LoadResult(parts, [], [])
  {
    var lines := RenderAll(parts, pad);
    if |parts| == 0 {
      assert Join(lines, '\n') == [];
      assert ReadLines([]) == [];
      assert KeptLines([]) == [];
    } else {
      KeptRendered(parts, pad);
      KeptReadLines(Join(lines, '\n'));
      SplitJoin(lines, '\n');
      ParseAllRendered(parts, pad);
    }
  }
}
