/** `FileProcessor.create_default_file`: the text written when the filter
    file is missing, and what the loader makes of it. */
module DefaultFile {
  import opened PyText
  import opened PyInt
  import opened DataParts
  import opened FileProcessor

  /** A line the loader drops as a comment: it starts with the comment
      marker and holds no line feed or carriage return, so it stays a single
      line when read back. */
  predicate IsCommentLine(line: string) {
    line != [] && line[0] == CommentMarker && '\n' !in line && '\r' !in line
  }

  predicate AllComments(lines: seq<string>) {
    forall k :: 0 <= k < |lines| ==> IsCommentLine(lines[k])
  }

  /** A part whose name starts with a visible ASCII character other than
      the comment marker and holds no comma, line feed or carriage return,
      with ordered bounds: a plainer form of `Writable`. */
  predicate PlainPart(p: DataPart) {
    && p.name != []
    && '!' <= p.name[0] <= '~'
    && p.name[0] != CommentMarker
    && (forall k :: 0 <= k < |p.name| ==> p.name[k] !in [Separator, '\n', '\r'])
    && Ordered(p)
  }

  predicate AllPlain(parts: seq<DataPart>) {
    forall k :: 0 <= k < |parts| ==> PlainPart(parts[k])
  }

  /** Visible ASCII is never whitespace, so a plain part is writable. */
  lemma PlainWritable(p: DataPart)
    requires PlainPart(p)
    ensures Writable(p)
  {
  }

  // The comment block at the top of the default file, paragraph by
  // paragraph. Long lines are written as a concatenation of shorter
  // literals; the text is unchanged.

  /** The title, author and format version, and the comment marker. */
  const Credits: seq<string> := [
    "; Balloon Raw Data" + " Translator v0.1",
    "; Created by: Thomas" + " Westpfal",
    "; Filter Data" + " Format: v1.0",
    "; Commented lines" + " are denoted with a" + " ';'"
  ]

  lemma CreditsComment0()
    ensures IsCommentLine(Credits[0])
  {
  }

  lemma CreditsComment1()
    ensures IsCommentLine(Credits[1])
  {
  }

  lemma CreditsComment2()
    ensures IsCommentLine(Credits[2])
  {
  }

  lemma CreditsComment3()
    ensures IsCommentLine(Credits[3])
  {
  }

  lemma CreditsComments()
    ensures AllComments(Credits)
  {
    CreditsComment0();
    CreditsComment1();
    CreditsComment2();
    CreditsComment3();
  }

  /** What the file is for. */
  const PurposeNote: seq<string> := [
    "; NOTE: Use this" + " file to modify the" + " way the 'Data" + " Translator' filters",
    "; the given data."
  ]

  lemma PurposeNoteComment0()
    ensures IsCommentLine(PurposeNote[0])
  {
  }

  lemma PurposeNoteComment1()
    ensures IsCommentLine(PurposeNote[1])
  {
  }

  lemma PurposeNoteComments()
    ensures AllComments(PurposeNote)
  {
    PurposeNoteComment0();
    PurposeNoteComment1();
  }

  /** What the two indices mean. */
  const BoundsNote: seq<string> := [
    "; The 'lower_index'" + " is position of the" + " starting character" + " and the",
    "; 'upper_index' is" + " the position of the" + " last character" + " (inclusive)"
  ]

  lemma BoundsNoteComment0()
    ensures IsCommentLine(BoundsNote[0])
  {
  }

  lemma BoundsNoteComment1()
    ensures IsCommentLine(BoundsNote[1])
  {
  }

  lemma BoundsNoteComments()
    ensures AllComments(BoundsNote)
  {
    BoundsNoteComment0();
    BoundsNoteComment1();
  }

  /** How positions are counted. */
  const CountingNote: seq<string> := [
    "; Indices start with" + " the first character" + " being 0 and include" + " all",
    "; characters (i.e." + " includes spaces)"
  ]

  lemma CountingNoteComment0()
    ensures IsCommentLine(CountingNote[0])
  {
  }

  lemma CountingNoteComment1()
    ensures IsCommentLine(CountingNote[1])
  {
  }

  lemma CountingNoteComments()
    ensures AllComments(CountingNote)
  {
    CountingNoteComment0();
    CountingNoteComment1();
  }

  /** The worked example. */
  const ExampleNote: seq<string> := [
    "; Ex. 'test" + " sentence' -> {1, 8}" + " will give you ->" + " 'est sent'"
  ]

  lemma ExampleNoteComments()
    ensures AllComments(ExampleNote)
  {
    assert IsCommentLine(ExampleNote[0]);
  }

  /** The restriction on names. */
  const NamingNote: seq<string> := [
    "; The 'name' of any" + " of the items MUST" + " NOT contain a ';'" + " or a ','",
    "; ANY USAGE of these" + " characters in the" + " 'name' will break" + " the way",
    "; the file is read."
  ]

  lemma NamingNoteComment0()
    ensures IsCommentLine(NamingNote[0])
  {
  }

  lemma NamingNoteComment1()
    ensures IsCommentLine(NamingNote[1])
  {
  }

  lemma NamingNoteComment2()
    ensures IsCommentLine(NamingNote[2])
  {
  }

  lemma NamingNoteComments()
    ensures AllComments(NamingNote)
  {
    NamingNoteComment0();
    NamingNoteComment1();
    NamingNoteComment2();
  }

  /** What happens when the file is deleted. */
  const RegenerationNote: seq<string> := [
    "; If this file is" + " ever deleted, a new" + " one will" + " automatically be" + " created",
    "; with all of the" + " default values."
  ]

  lemma RegenerationNoteComment0()
    ensures IsCommentLine(RegenerationNote[0])
  {
  }

  lemma RegenerationNoteComment1()
    ensures IsCommentLine(RegenerationNote[1])
  {
  }

  lemma RegenerationNoteComments()
    ensures AllComments(RegenerationNote)
  {
    RegenerationNoteComment0();
    RegenerationNoteComment1();
  }

  /** The column layout of a field line. */
  const ColumnsNote: seq<string> := [
    ";" + " name,lower_index,upper_index"
  ]

  lemma ColumnsNoteComments()
    ensures AllComments(ColumnsNote)
  {
    assert IsCommentLine(ColumnsNote[0]);
  }

  /** `header_comment`: the paragraphs separated by bare comment markers,
      newline-separated, with no newline after the last line. */
  const HeaderLines: seq<string> :=
    Credits + [";"] + PurposeNote + [";"] + BoundsNote + [";"] + CountingNote + [";"]
    + ExampleNote + [";"] + NamingNote + [";"] + RegenerationNote + [";"] + ColumnsNote

  const HeaderComment: string := Join(HeaderLines, '\n')

  /** Every one of the 24 header lines is a single comment line. */
  lemma HeaderIsComments()
    ensures |HeaderLines| == 24
    ensures AllComments(HeaderLines)
  {
    CreditsComments();
    PurposeNoteComments();
    BoundsNoteComments();
    CountingNoteComments();
    ExampleNoteComments();
    NamingNoteComments();
    RegenerationNoteComments();
    ColumnsNoteComments();
  }

  // The sixteen fields of the default filter, in file order.

  /** The packet time and its hour, minute and second. */
  const TimeParts: seq<DataPart> := [
    DataPart("PACKET SEND TIME", 1, 7),
    DataPart("| - hour", 1, 2),
    DataPart("| - minute", 3, 4),
    DataPart("| - second", 5, 6)
  ]

  lemma PacketSendTimePlain()
    ensures PlainPart(TimeParts[0])
  {
  }

  lemma HourPlain()
    ensures PlainPart(TimeParts[1])
  {
  }

  lemma MinutePlain()
    ensures PlainPart(TimeParts[2])
  {
  }

  lemma SecondPlain()
    ensures PlainPart(TimeParts[3])
  {
  }

  lemma TimePartsPlain()
    ensures AllPlain(TimeParts)
  {
    PacketSendTimePlain();
    HourPlain();
    MinutePlain();
    SecondPlain();
  }

  /** The coordinates and the symbol between them. */
  const PositionParts: seq<DataPart> := [
    DataPart("LATITUDE COORDINATES", 8, 15),
    DataPart("LONGITUDE COORDINATES", 17, 25),
    DataPart("BALLOON INDICATOR", 26, 26)
  ]

  lemma LatitudePlain()
    ensures PlainPart(PositionParts[0])
  {
  }

  lemma LongitudePlain()
    ensures PlainPart(PositionParts[1])
  {
  }

  lemma BalloonIndicatorPlain()
    ensures PlainPart(PositionParts[2])
  {
  }

  lemma PositionPartsPlain()
    ensures AllPlain(PositionParts)
  {
    LatitudePlain();
    LongitudePlain();
    BalloonIndicatorPlain();
  }

  /** Course, speed and altitude. */
  const MotionParts: seq<DataPart> := [
    DataPart("COURSE (degrees)", 27, 29),
    DataPart("SPEED (nautical miles)", 31, 33),
    DataPart("ALTITUDE (feet)", 37, 42)
  ]

  lemma CoursePlain()
    ensures PlainPart(MotionParts[0])
  {
  }

  lemma SpeedPlain()
    ensures PlainPart(MotionParts[1])
  {
  }

  lemma AltitudePlain()
    ensures PlainPart(MotionParts[2])
  {
  }

  lemma MotionPartsPlain()
    ensures AllPlain(MotionParts)
  {
    CoursePlain();
    SpeedPlain();
    AltitudePlain();
  }

  /** The telemetry counter and the two sensor readings. */
  const SensorParts: seq<DataPart> := [
    DataPart("TELEMETRY COUNTER", 44, 49),
    DataPart("TEMPERATURE (celsius)", 53, 56),
    DataPart("PRESSURE (millibars)", 60, 65)
  ]

  lemma TelemetryCounterPlain()
    ensures PlainPart(SensorParts[0])
  {
  }

  lemma TemperaturePlain()
    ensures PlainPart(SensorParts[1])
  {
  }

  lemma PressurePlain()
    ensures PlainPart(SensorParts[2])
  {
  }

  lemma SensorPartsPlain()
    ensures AllPlain(SensorParts)
  {
    TelemetryCounterPlain();
    TemperaturePlain();
    PressurePlain();
  }

  /** Battery, satellites and the free-text comment. */
  const StatusParts: seq<DataPart> := [
    DataPart("BATTERY VOLTAGE (volts)", 71, 74),
    DataPart("VALID SATELLITES", 77, 78),
    DataPart("COMMENT", 81, 999)
  ]

  lemma BatteryVoltagePlain()
    ensures PlainPart(StatusParts[0])
  {
  }

  lemma ValidSatellitesPlain()
    ensures PlainPart(StatusParts[1])
  {
  }

  lemma CommentPlain()
    ensures PlainPart(StatusParts[2])
  {
  }

  lemma StatusPartsPlain()
    ensures AllPlain(StatusParts)
  {
    BatteryVoltagePlain();
    ValidSatellitesPlain();
    CommentPlain();
  }

  /** The sixteen default parts, in file order. */
  const DefaultParts: seq<DataPart> := TimeParts + PositionParts + MotionParts + SensorParts + StatusParts

  /** The field lines of `default_filter`: each part as `name, lower, upper`,
      one space after each comma. */
  const DefaultFieldLines: seq<string> := RenderAll(DefaultParts, " ")

  /** `default_filter`: a blank line, then the field lines, each introduced
      by a newline. */
  const DefaultFilter: string := "\n" + "\n" + Join(DefaultFieldLines, '\n')

  /** The whole default file: the header, then the filter, as the two
      `write` calls leave it. */
  const DefaultContent: string := HeaderComment + DefaultFilter

  /** Every default part can be written and read back, and its bounds are
      already ordered. */
  lemma DefaultPartsWritable()
    ensures |DefaultParts| == 16
    ensures forall k :: 0 <= k < |DefaultParts| ==> Writable(DefaultParts[k])
  {
    TimePartsPlain();
    PositionPartsPlain();
    MotionPartsPlain();
    SensorPartsPlain();
    StatusPartsPlain();
    forall k | 0 <= k < |DefaultParts|
      ensures Writable(DefaultParts[k])
    {
      PlainWritable(DefaultParts[k]);
    }
  }

  /** Joining a header, a blank line and the field lines writes the header,
      two newlines and the field lines. */
  lemma JoinHeaderAndFields(header: seq<string>, fields: seq<string>)
    requires |header| >= 1 && |fields| >= 1
    ensures Join(header + [""] + fields, '\n')
            == Join(header, '\n') + ("\n" + "\n" + Join(fields, '\n'))
  {
    var rest := [""] + fields;
    var x, y := Join(header, '\n'), Join(fields, '\n');
    calc {
      Join(header + [""] + fields, '\n');
      { assert header + [""] + fields == header + rest; }
      Join(header + rest, '\n');
      { JoinAppend(header, rest, '\n'); }
      x + "\n" + Join(rest, '\n');
      { assert rest[1..] == fields; }
      x + "\n" + ("" + "\n" + y);
      x + ("\n" + "\n" + y);
    }
  }

  /** Lines none of which holds a newline. */
  predicate SingleLines(lines: seq<string>) {
    forall k :: 0 <= k < |lines| ==> '\n' !in lines[k]
  }

  lemma SingleLinesAppend(a: seq<string>, b: seq<string>)
    requires SingleLines(a) && SingleLines(b)
    ensures SingleLines(a + b)
  {
    forall k | 0 <= k < |a + b|
      ensures '\n' !in (a + b)[k]
    {
      if k >= |a| {
        assert (a + b)[k] == b[k - |a|];
      }
    }
  }

  /** The text of a header, a blank line and the field lines, cut at its
      newlines, gives those lines back with the blank one between. */
  lemma SplitHeaderAndFields(header: seq<string>, fields: seq<string>)
    requires |header| >= 1 && SingleLines(header)
    requires |fields| >= 1 && SingleLines(fields)
    ensures Split(Join(header, '\n') + ("\n" + "\n" + Join(fields, '\n')), '\n')
            == header + [""] + fields
  {
    JoinHeaderAndFields(header, fields);
    assert SingleLines([""]);
    SingleLinesAppend(header, [""]);
    SingleLinesAppend(header + [""], fields);
    SplitJoin(header + [""] + fields, '\n');
  }

  /** The loader drops the comment header and the blank line, and keeps
      field lines it would keep on their own. */
  lemma KeptHeaderAndFields(header: seq<string>, fields: seq<string>)
    requires AllComments(header)
    ensures KeptLines(header + [""] + fields) == KeptLines(fields)
  {
    KeptLinesComments(header);
    KeptLinesOne("");
    assert KeptLines([""]) == [];
    KeptLinesAppend(header, [""]);
    KeptLinesAppend(header + [""], fields);
  }

  /** The layout `create_default_file` writes: a comment header, a blank
      line and one field line per part. Whatever the header says and
      whichever writable parts follow, the loader skips the header and the
      blank line and reads back exactly the parts. */
  lemma LoadHeaderAndFields(header: seq<string>, parts: seq<DataPart>, pad: string)
    requires |header| >= 1 && AllComments(header)
    requires |parts| >= 1 && forall k :: 0 <= k < |parts| ==> Writable(parts[k])
    requires Padding(pad)
    ensures Load(Join(header, '\n') + ("\n" + "\n" + Join(RenderAll(parts, pad), '\n')))
            == LoadResult(parts, [], [])
  {
    var f := RenderAll(parts, pad);
    var text := Join(header, '\n') + ("\n" + "\n" + Join(f, '\n'));
    KeptRendered(parts, pad);
    forall k | 0 <= k < |header|
      ensures '\n' !in header[k]
    {
      assert IsCommentLine(header[k]);
    }
    SplitHeaderAndFields(header, f);
    KeptReadLines(text);
    KeptHeaderAndFields(header, f);
    assert KeptLines(ReadLines(text)) == f;
    ParseAllRendered(parts, pad);
  }

  /** Loading the default file gives back the sixteen default parts, from
      `PACKET SEND TIME` at positions 1 to 7 to `COMMENT` at 81 to 999, with
      no line rejected and no bounds swapped. */
  lemma LoadDefault()
    ensures Load(DefaultContent) == LoadResult(DefaultParts, [], [])
    ensures |DefaultParts| == 16
    ensures DefaultParts[0] == DataPart("PACKET SEND TIME", 1, 7)
    ensures DefaultParts[15] == DataPart("COMMENT", 81, 999)
  {
    HeaderIsComments();
    DefaultPartsWritable();
    LoadHeaderAndFields(HeaderLines, DefaultParts, " ");
  }

  /** The default file, cut at its newlines, is the 24 header lines, one
      blank line and the 16 field lines, one per default part. */
  lemma DefaultContentLines()
    ensures Split(DefaultContent, '\n') == HeaderLines + [""] + DefaultFieldLines
    ensures |HeaderLines| == 24 && |DefaultFieldLines| == 16
  {
    HeaderIsComments();
    DefaultPartsWritable();
    KeptRendered(DefaultParts, " ");
    forall k | 0 <= k < |HeaderLines|
      ensures '\n' !in HeaderLines[k]
    {
      assert IsCommentLine(HeaderLines[k]);
    }
    SplitHeaderAndFields(HeaderLines, DefaultFieldLines);
  }

  /** The first field line as the file spells it, with a space after each
      comma. */
  lemma DefaultFirstLine()
    ensures DefaultFieldLines[0] == "PACKET SEND TIME" + ", 1, 7"
  {
  }

  /** The last field line as the file spells it. */
  lemma DefaultLastLine()
    ensures DefaultFieldLines[15] == "COMMENT, 81, 999"
  {
    assert DefaultFieldLines[15] == RenderLine(DataPart("COMMENT", 81, 999), " ");
  }
}
