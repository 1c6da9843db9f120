/** Transcript to SubRip conversion (text_to_anki/transcript_srt.py): lines of the form
    "MM:SS - text" become numbered SRT blocks whose end time is the next line's
    timestamp, or two seconds after the start. */
module TranscriptSrt {
  import opened Common

  // ---------------------------------------------------------------------------------
  // Lines and the timestamp pattern

  /** The \d of the timestamp pattern, read as an ASCII digit. */
  predicate IsDigit(c: char) {
    '0' <= c <= '9'
  }

  /** \d{2}:\d{2} */
  predicate IsStamp(t: string) {
    |t| == 5 && IsDigit(t[0]) && IsDigit(t[1]) && t[2] == ':' && IsDigit(t[3]) && IsDigit(t[4])
  }

  /** A timestamp as the pattern captures it: two digits, a colon and two digits. */
  type Stamp = t: string | IsStamp(t) witness "00:00"

  /** re.match(r"(\d{2}:\d{2}) - (.+)", line) succeeds: the line starts with a timestamp,
      " - " and at least one more character other than a newline. */
  predicate Matches(line: string) {
    |line| >= 9 && IsStamp(line[..5]) && line[5..8] == " - " && line[8] != '\n'
  }

  /** The pattern as a shape: a line matches exactly when it is a timestamp, " - " and a
      non-empty rest that does not start with a newline. */
  lemma MatchesForm(line: string)
    ensures Matches(line) <==> exists t: Stamp, rest: string | rest != [] && rest[0] != '\n' ::
                                 line == t + " - " + rest
  {
    if Matches(line) {
      assert line == line[..5] + " - " + line[8..];
    }
    forall t: Stamp, rest: string | rest != [] && rest[0] != '\n' && line == t + " - " + rest
      ensures Matches(line)
    {
      assert line[..5] == t && line[5..8] == " - " && line[8] == rest[0];
    }
  }

  /** group(2) of a matching line: the rest after " - ", up to any newline. */
  function LineText(line: string): (text: string)
    requires Matches(line)
    ensures text != [] && '\n' !in text
    ensures '\n' !in line ==> text == line[8..]
  {
    PrefixBefore(line[8..], '\n')
  }

  /** transcript.strip().split('\n') */
  function Lines(transcript: string, lib: TextLib): (ls: seq<string>)
    ensures |ls| >= 1
    ensures forall l | l in ls :: '\n' !in l
    ensures Join(ls, "\n") == Strip(transcript, lib.isSpace)
  {
    Split(Strip(transcript, lib.isSpace), '\n')
  }

  // ---------------------------------------------------------------------------------
  // Time arithmetic: datetime.strptime / strftime with "%M:%S"

  /** Minutes of a timestamp. */
  function MinuteField(t: Stamp): nat
  {
    10 * DigitValue(t[0]) + DigitValue(t[1])
  }

  /** Seconds of a timestamp. */
  function SecondField(t: Stamp): nat
  {
    10 * DigitValue(t[3]) + DigitValue(t[4])
  }

  /** datetime.strptime(t, "%M:%S") for a timestamp: the seconds past the hour, or
      ValueError when the minutes or the seconds are over 59. */
  function StrpTime(t: Stamp): (r: Result<nat>)
    ensures r.Ok? <==> MinuteField(t) < 60 && SecondField(t) < 60
    ensures r.Ok? ==> r.value == 60 * MinuteField(t) + SecondField(t) < 3600
  {
    var m, s := MinuteField(t), SecondField(t);
    if m < 60 && s < 60 then Ok(60 * m + s) else Err(ValueError(t))
  }

  function TwoDigits(n: nat): (r: string)
    requires n < 100
    ensures |r| == 2 && IsDigit(r[0]) && IsDigit(r[1])
    ensures 10 * DigitValue(r[0]) + DigitValue(r[1]) == n
  {
    [DigitChar(n / 10), DigitChar(n % 10)]
  }

  /** strftime("%M:%S") of the time secs seconds past the hour. */
  function StrfTime(secs: nat): (t: Stamp)
    requires secs < 3600
  {
    TwoDigits(secs / 60) + ":" + TwoDigits(secs % 60)
  }

  /** Formatting a time and reading it back gives the same time. */
  lemma TimeRoundTrip(secs: nat)
    requires secs < 3600
    ensures StrpTime(StrfTime(secs)) == Ok(secs)
  {
    var t := StrfTime(secs);
    assert t[..2] == TwoDigits(secs / 60) && t[3..] == TwoDigits(secs % 60);
    assert MinuteField(t) == secs / 60;
    assert SecondField(t) == secs % 60;
  }

  /** Reading a valid timestamp and formatting it again gives the same string. */
  lemma StampRoundTrip(t: Stamp)
    requires StrpTime(t).Ok?
    ensures StrfTime(StrpTime(t).value) == t
  {
    var secs := StrpTime(t).value;
    var u := StrfTime(secs);
    var m, s := MinuteField(t), SecondField(t);
    assert secs == 60 * m + s;
    assert secs / 60 == m && secs % 60 == s;
    assert m / 10 == DigitValue(t[0]) && m % 10 == DigitValue(t[1]);
    assert s / 10 == DigitValue(t[3]) && s % 10 == DigitValue(t[4]);
    assert u[0] == t[0] && u[1] == t[1] && u[2] == t[2] && u[3] == t[3] && u[4] == t[4];
  }

  // ---------------------------------------------------------------------------------
  // Parsing

  /** One subtitle: start and end as "MM:SS" and the text. */
  datatype Entry = Entry(start: Stamp, end: Stamp, text: string)

  /** calculate_end_time: the timestamp of the next raw line if that line matches;
      otherwise two seconds after the start, keeping only minutes and seconds. */
  function EndTime(start: Stamp, index: nat, lines: seq<string>): (r: Result<Stamp>)
    ensures index + 1 < |lines| && Matches(lines[index + 1]) ==>
              r.Ok? && r.value == lines[index + 1][..5]
    ensures !(index + 1 < |lines| && Matches(lines[index + 1])) ==>
              && (r.Ok? <==> StrpTime(start).Ok?)
              && (r.Ok? ==> StrpTime(r.value) == Ok((StrpTime(start).value + 2) % 3600))
  {
    if index + 1 < |lines| && Matches(lines[index + 1]) then
      var next: Stamp := lines[index + 1][..5];
      Ok(next)
    else
      match StrpTime(start)
      case Err(e) => Err(e)
      case Ok(secs) =>
        TimeRoundTrip((secs + 2) % 3600);
        Ok(StrfTime((secs + 2) % 3600))
  }

  /** The fallback wraps at the hour: "59:59" ends at "00:01". */
  lemma EndTimeWrapsAtHour()
    ensures EndTime("59:59", 0, ["59:59 - last words"]).Ok?
    ensures EndTime("59:59", 0, ["59:59 - last words"]).value == "00:01"
  {
    assert MinuteField("59:59") == 59 && SecondField("59:59") == 59;
    assert StrpTime("59:59") == Ok(3599);
    assert (3599 + 2) % 3600 == 1 && 1 / 60 == 0 && 1 % 60 == 1;
    assert TwoDigits(0) == "00" && TwoDigits(1) == "01";
    assert StrfTime(1) == "00:01";
  }

  /** The result of parse_transcript's loop after its first n lines: the entries so far,
      or the error of the first end time that could not be computed. */
  function ParsedPrefix(lines: seq<string>, n: nat): (r: Result<seq<Entry>>)
    requires n <= |lines|
    ensures r.Ok? ==> |r.value| <= n
  {
    if n == 0 then Ok([])
    else
      match ParsedPrefix(lines, n - 1)
      case Err(e) => Err(e)
      case Ok(entries) =>
        var line := lines[n - 1];
        if !Matches(line) then Ok(entries)
        else
          match EndTime(line[..5], n - 1, lines)
          case Err(e) => Err(e)
          case Ok(end) => Ok(entries + [Entry(line[..5], end, LineText(line))])
  }

  /** parse_transcript's result. */
  function Parse(transcript: string, lib: TextLib): Result<seq<Entry>> {
    var lines := Lines(transcript, lib);
    ParsedPrefix(lines, |lines|)
  }

  /** Once the loop has raised, later lines do not matter. */
  lemma {:induction false} ParsedPrefixErrorSticks(lines: seq<string>, n: nat, m: nat)
    requires n <= m <= |lines| && ParsedPrefix(lines, n).Err?
    ensures ParsedPrefix(lines, m) == ParsedPrefix(lines, n)
    decreases m - n
  {
    if n < m {
      ParsedPrefixErrorSticks(lines, n, m - 1);
    }
  }

  /** One more line: a line that does not match changes nothing, a matching one adds its
      entry, or makes the whole parse fail with calculate_end_time's error. */
  lemma ParsedPrefixNext(lines: seq<string>, i: nat, parsed: seq<Entry>)
    requires i < |lines| && ParsedPrefix(lines, i) == Ok(parsed)
    ensures !Matches(lines[i]) ==> ParsedPrefix(lines, i + 1) == Ok(parsed)
    ensures Matches(lines[i]) && EndTime(lines[i][..5], i, lines).Ok? ==>
              ParsedPrefix(lines, i + 1) ==
              Ok(parsed + [Entry(lines[i][..5], EndTime(lines[i][..5], i, lines).value, LineText(lines[i]))])
    ensures Matches(lines[i]) && EndTime(lines[i][..5], i, lines).Err? ==>
              ParsedPrefix(lines, |lines|) == Err(EndTime(lines[i][..5], i, lines).error)
  {
    if Matches(lines[i]) && EndTime(lines[i][..5], i, lines).Err? {
      ParsedPrefixErrorSticks(lines, i + 1, |lines|);
    }
  }

  /** parse_transcript's loop over the lines: the first end time that raises ends it. */
  method ParseLines(lines: seq<string>) returns (r: Result<seq<Entry>>)
    ensures r == ParsedPrefix(lines, |lines|)
  {
    var parsed: seq<Entry> := [];
    for i := 0 to |lines|
      invariant ParsedPrefix(lines, i) == Ok(parsed)
    {
      ParsedPrefixNext(lines, i, parsed);
      if Matches(lines[i]) {
        var start := lines[i][..5];
        var text := LineText(lines[i]);
        var end := EndTime(start, i, lines);
        if end.Err? {
          return Err(end.error);
        }
        parsed := parsed + [Entry(start, end.value, text)];
      }
    }
    return Ok(parsed);
  }

  /** parse_transcript */
  method ParseTranscript(transcript: string, lib: TextLib) returns (r: Result<seq<Entry>>)
    ensures r == Parse(transcript, lib)
  {
    var lines := Lines(transcript, lib);
    r := ParseLines(lines);
  }

  /** The indices of the matching lines among the first n, in increasing order. */
  function Kept(lines: seq<string>, n: nat): (ks: seq<nat>)
    requires n <= |lines|
    ensures forall j | 0 <= j < |ks| :: ks[j] < n && Matches(lines[ks[j]])
    ensures forall j, j' | 0 <= j < j' < |ks| :: ks[j] < ks[j']
    ensures forall i | 0 <= i < n && Matches(lines[i]) :: i in ks
  {
    if n == 0 then [] else Kept(lines, n - 1) + (if Matches(lines[n - 1]) then [n - 1] else [])
  }

  /** The entries are the matching lines, in order, one each: start and text come from the
      line and the end time is calculate_end_time's for that line. */
  lemma {:induction false} ParseFollowsKept(lines: seq<string>, n: nat)
    requires n <= |lines| && ParsedPrefix(lines, n).Ok?
    ensures |ParsedPrefix(lines, n).value| == |Kept(lines, n)|
    ensures forall j | 0 <= j < |Kept(lines, n)| ::
              && ParsedPrefix(lines, n).value[j].start == lines[Kept(lines, n)[j]][..5]
              && ParsedPrefix(lines, n).value[j].text == LineText(lines[Kept(lines, n)[j]])
              && EndTime(lines[Kept(lines, n)[j]][..5], Kept(lines, n)[j], lines)
                 == Ok(ParsedPrefix(lines, n).value[j].end)
    decreases n
  {
    if n > 0 {
      ParseFollowsKept(lines, n - 1);
    }
  }

  /** Parsing fails exactly when some matching line needs the two-second fallback and its
      start is not a valid time. */
  lemma {:induction false} ParseOkIff(lines: seq<string>, n: nat)
    requires n <= |lines|
    ensures ParsedPrefix(lines, n).Ok? <==>
            forall i | 0 <= i < n && Matches(lines[i]) :: EndTime(lines[i][..5], i, lines).Ok?
    decreases n
  {
    if n > 0 {
      ParseOkIff(lines, n - 1);
    }
  }

  // ---------------------------------------------------------------------------------
  // SubRip output

  /** format_time_srt: "MM:SS" becomes "00:MM:SS,000"; strptime's ValueError otherwise. */
  function FormatTimeSrt(t: Stamp): (r: Result<string>)
    ensures r.Ok? <==> StrpTime(t).Ok?
    ensures r.Ok? ==> r.value == "00:" + t + ",000"
  {
    match StrpTime(t)
    case Err(e) => Err(e)
    case Ok(secs) =>
      StampRoundTrip(t);
      Ok("00:" + StrfTime(secs) + ",000")
  }

  /** Both times of the entry are valid times. */
  predicate TimesValid(e: Entry) {
    StrpTime(e.start).Ok? && StrpTime(e.end).Ok?
  }

  /** The timing line of an entry in SRT form. */
  function TimeLine(e: Entry): string {
    "00:" + e.start + ",000 --> 00:" + e.end + ",000"
  }

  /** The four lines of the block numbered `number`. */
  function SrtBlock(number: nat, e: Entry): (r: Result<seq<string>>)
    ensures r.Ok? <==> TimesValid(e)
    ensures r.Ok? ==> r.value == [DecimalString(number), TimeLine(e), e.text, ""]
  {
    match FormatTimeSrt(e.start)
    case Err(err) => Err(err)
    case Ok(s) =>
      match FormatTimeSrt(e.end)
      case Err(err) => Err(err)
      case Ok(t) =>
        assert s + " --> " + t == TimeLine(e);
        Ok([DecimalString(number), s + " --> " + t, e.text, ""])
  }

  /** The srt_lines list convert_to_srt builds from these entries. */
  function SrtLines(entries: seq<Entry>): Result<seq<string>>
  {
    if entries == [] then Ok([])
    else
      var n := |entries| - 1;
      match SrtLines(entries[..n])
      case Err(e) => Err(e)
      case Ok(ls) =>
        match SrtBlock(n + 1, entries[n])
        case Err(e) => Err(e)
        case Ok(b) => Ok(ls + b)
  }

  /** convert_to_srt's result. */
  function Srt(transcript: string, lib: TextLib): Result<string> {
    match Parse(transcript, lib)
    case Err(e) => Err(e)
    case Ok(entries) =>
      match SrtLines(entries)
      case Err(e) => Err(e)
      case Ok(ls) => Ok(Join(ls, "\n"))
  }

  lemma {:induction false} SrtLinesErrorSticks(entries: seq<Entry>, n: nat, m: nat)
    requires n <= m <= |entries| && SrtLines(entries[..n]).Err?
    ensures SrtLines(entries[..m]) == SrtLines(entries[..n])
    decreases m - n
  {
    if n < m {
      SrtLinesErrorSticks(entries, n, m - 1);
      assert entries[..m][..m - 1] == entries[..m - 1];
    }
  }

  /** One more entry adds its block to the lines of those before it. */
  lemma SrtLinesNext(entries: seq<Entry>, i: nat, ls: seq<string>, b: seq<string>)
    requires i < |entries| && SrtLines(entries[..i]) == Ok(ls)
    requires SrtBlock(i + 1, entries[i]) == Ok(b)
    ensures SrtLines(entries[..i + 1]) == Ok(ls + b)
  {
    assert entries[..i + 1][..i] == entries[..i];
  }

  /** An entry whose block fails makes the lines of every longer prefix fail the same way. */
  lemma SrtLinesFail(entries: seq<Entry>, i: nat, ls: seq<string>)
    requires i < |entries| && SrtLines(entries[..i]) == Ok(ls)
    requires SrtBlock(i + 1, entries[i]).Err?
    ensures SrtLines(entries) == Err(SrtBlock(i + 1, entries[i]).error)
  {
    assert entries[..i + 1][..i] == entries[..i];
    SrtLinesErrorSticks(entries, i + 1, |entries|);
    assert entries[..|entries|] == entries;
  }

  /** Appending one item and then three more appends the four. */
  lemma AppendLines<T>(xs: seq<T>, a: T, b: T, c: T, d: T)
    ensures xs + [a] + [b, c, d] == xs + [a, b, c, d]
  {
  }

  /** convert_to_srt's loop: four lines per entry, or the first ValueError raised while
      formatting a time. */
  method BuildSrtLines(entries: seq<Entry>) returns (r: Result<seq<string>>)
    ensures r == SrtLines(entries)
  {
    var srtLines: seq<string> := [];
    for i := 0 to |entries|
      invariant SrtLines(entries[..i]) == Ok(srtLines)
    {
      var e := entries[i];
      ghost var before := srtLines;
      srtLines := srtLines + [DecimalString(i + 1)];
      var start := FormatTimeSrt(e.start);
      if start.Err? {
        SrtLinesFail(entries, i, before);
        return Err(start.error);
      }
      var end := FormatTimeSrt(e.end);
      if end.Err? {
        SrtLinesFail(entries, i, before);
        return Err(end.error);
      }
      ghost var block := [DecimalString(i + 1), start.value + " --> " + end.value, e.text, ""];
      AppendLines(before, DecimalString(i + 1), start.value + " --> " + end.value, e.text, "");
      srtLines := srtLines + [start.value + " --> " + end.value, e.text, ""];
      SrtLinesNext(entries, i, before, block);
    }
    assert entries[..|entries|] == entries;
    return Ok(srtLines);
  }

  /** convert_to_srt */
  method ConvertToSrt(transcript: string, lib: TextLib) returns (r: Result<string>)
    ensures r == Srt(transcript, lib)
  {
    var parsed := ParseTranscript(transcript, lib);
    if parsed.Err? {
      return Err(parsed.error);
    }
    var srtLines := BuildSrtLines(parsed.value);
    if srtLines.Err? {
      return Err(srtLines.error);
    }
    return Ok(Join(srtLines.value, "\n"));
  }

  /** Every entry gives exactly four lines: its 1-based number, "start --> end" in SRT
      form, its text and an empty line. */
  lemma {:induction false} SrtLinesShape(entries: seq<Entry>)
    requires SrtLines(entries).Ok?
    ensures |SrtLines(entries).value| == 4 * |entries|
    ensures forall j | 0 <= j < |entries| ::
              && SrtLines(entries).value[4 * j] == DecimalString(j + 1)
              && SrtLines(entries).value[4 * j + 1] == TimeLine(entries[j])
              && SrtLines(entries).value[4 * j + 2] == entries[j].text
              && SrtLines(entries).value[4 * j + 3] == ""
    decreases |entries|
  {
    if entries != [] {
      var n := |entries| - 1;
      var init := entries[..n];
      var ls := SrtLines(init).value;
      var b := SrtBlock(n + 1, entries[n]).value;
      var all := SrtLines(entries).value;
      assert all == ls + b;
      SrtLinesShape(init);
      forall j | 0 <= j < |entries|
        ensures all[4 * j] == DecimalString(j + 1)
        ensures all[4 * j + 1] == TimeLine(entries[j])
        ensures all[4 * j + 2] == entries[j].text
        ensures all[4 * j + 3] == ""
      {
        if j < n {
          assert init[j] == entries[j];
          assert all[4 * j] == ls[4 * j] && all[4 * j + 1] == ls[4 * j + 1];
          assert all[4 * j + 2] == ls[4 * j + 2] && all[4 * j + 3] == ls[4 * j + 3];
        } else {
          assert all[4 * j] == b[0] && all[4 * j + 1] == b[1];
          assert all[4 * j + 2] == b[2] && all[4 * j + 3] == b[3];
        }
      }
    }
  }

  /** Entries with valid times followed by one more such entry all have valid times. */
  lemma ValidExtend(init: seq<Entry>, entries: seq<Entry>)
    requires entries != [] && init == entries[..|entries| - 1]
    requires forall j | 0 <= j < |init| :: TimesValid(init[j])
    requires TimesValid(entries[|entries| - 1])
    ensures forall j | 0 <= j < |entries| :: TimesValid(entries[j])
  {
    forall j | 0 <= j < |entries| ensures TimesValid(entries[j]) {
      if j < |init| {
        assert init[j] == entries[j];
      }
    }
  }

  /** The conversion fails exactly when some start or end time is not a valid time. */
  lemma {:induction false} SrtLinesOkIff(entries: seq<Entry>)
    ensures SrtLines(entries).Ok? <==> forall j | 0 <= j < |entries| :: TimesValid(entries[j])
    decreases |entries|
  {
    if entries != [] {
      var n := |entries| - 1;
      var init := entries[..n];
      SrtLinesOkIff(init);
      var last := SrtBlock(n + 1, entries[n]);
      assert SrtLines(entries).Ok? <==> SrtLines(init).Ok? && last.Ok?;
      if SrtLines(entries).Ok? {
        ValidExtend(init, entries);
      } else if SrtLines(init).Err? {
        var j :| 0 <= j < n && !TimesValid(init[j]);
        assert init[j] == entries[j];
      } else {
        assert !TimesValid(entries[n]);
      }
    }
  }

  /** A transcript without timestamped lines converts to the empty string. */
  lemma SrtOfNoEntries(transcript: string, lib: TextLib)
    requires Parse(transcript, lib) == Ok([])
    ensures Srt(transcript, lib) == Ok("")
  {
  }

  /** A parsed text is one line. */
  lemma {:induction false} ParsedTextsOneLine(lines: seq<string>, n: nat)
    requires n <= |lines| && ParsedPrefix(lines, n).Ok?
    ensures forall j | 0 <= j < |ParsedPrefix(lines, n).value| ::
              '\n' !in ParsedPrefix(lines, n).value[j].text
    decreases n
  {
    if n > 0 {
      ParsedTextsOneLine(lines, n - 1);
    }
  }

  lemma StampOneLine(t: Stamp)
    ensures '\n' !in "00:" + t + ",000"
  {
    var u := "00:" + t + ",000";
    forall k | 0 <= k < |u| ensures u[k] != '\n' {
      if 3 <= k < 8 {
        assert u[k] == t[k - 3];
      }
    }
  }

  lemma DecimalOneLine(n: nat)
    ensures '\n' !in DecimalString(n)
  {
    var r := DecimalString(n);
    forall k | 0 <= k < |r| ensures r[k] != '\n' {
      assert '0' <= r[k] <= '9';
    }
  }

  /** No SRT line holds a newline when no text does. */
  lemma {:induction false} SrtLinesOneLine(entries: seq<Entry>)
    requires SrtLines(entries).Ok?
    requires forall j | 0 <= j < |entries| :: '\n' !in entries[j].text
    ensures forall p | p in SrtLines(entries).value :: '\n' !in p
    decreases |entries|
  {
    if entries != [] {
      var n := |entries| - 1;
      SrtLinesOneLine(entries[..n]);
      var e := entries[n];
      StampOneLine(e.start);
      StampOneLine(e.end);
      DecimalOneLine(n + 1);
      var s, t := "00:" + e.start + ",000", "00:" + e.end + ",000";
      assert TimeLine(e) == s + " --> " + t;
      assert '\n' !in s + " --> " + t;
    }
  }

  /** Splitting the output at newlines gives back the SRT lines, four per entry. */
  lemma SrtOutputLines(transcript: string, lib: TextLib)
    requires Parse(transcript, lib).Ok? && Parse(transcript, lib).value != []
    requires SrtLines(Parse(transcript, lib).value).Ok?
    ensures Srt(transcript, lib).Ok?
    ensures Split(Srt(transcript, lib).value, '\n') == SrtLines(Parse(transcript, lib).value).value
  {
    var lines := Lines(transcript, lib);
    var entries := Parse(transcript, lib).value;
    ParsedTextsOneLine(lines, |lines|);
    SrtLinesOneLine(entries);
    SrtLinesShape(entries);
    SplitOfJoin(SrtLines(entries).value, '\n');
  }
}
