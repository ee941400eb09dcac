/**
 * The record formatter: one intercepted event and the backend's context become
 * one comma-separated line of 22 positional fields ending in a newline.
 */
module AuditLine {
  import opened Wrappers
  import opened Text

  const Separator: char := ','
  const FieldCount: nat := 22
  /** Position of the message text and of the line number among the fields. */
  const MessageField: nat := 12
  const LineNumberField: nat := 6

  /** FORMATTED_TS_LEN, and where format_log_time pastes ".mmm". */
  const FormattedTimestampLength: nat := 128
  const MillisOffset: nat := 19

  /** The parts of PostgreSQL's ErrorData the formatter and the interception read. */
  datatype ErrorData = ErrorData(
    message: string,
    sqlState: string,              // unpack_sql_state(sqlerrcode)
    detailLog: Option<string>,
    detail: Option<string>,
    hint: Option<string>,
    internalQuery: Option<string>,
    internalPos: int,
    context: Option<string>,
    hideStmt: bool,
    cursorPos: int,
    funcName: Option<string>,
    fileName: Option<string>,
    lineNo: int,
    outputToServer: bool)

  /** MyProcPort: the client connection, when there is one. */
  datatype Port = Port(
    userName: Option<string>,
    databaseName: Option<string>,
    remoteHost: Option<string>,
    remotePort: Option<string>)

  /** MyProc's backend id and local transaction id, when the backend id is valid. */
  datatype VirtualXid = VirtualXid(backendId: int, localXid: int)

  /** What the host process supplies to the formatter. */
  datatype Backend = Backend(
    pid: int,                          // MyProcPid
    startTime: int,                    // MyStartTime
    startTimeText: string,             // MyStartTime rendered as "%Y-%m-%d %H:%M:%S %Z"
    port: Option<Port>,
    psDisplay: string,                 // the displen bytes get_ps_display returns
    vxid: Option<VirtualXid>,
    topXid: int,                       // GetTopTransactionIdIfAny()
    debugQuery: Option<string>,        // debug_query_string
    verboseErrors: bool,               // Log_error_verbosity >= PGERROR_VERBOSE
    applicationName: Option<string>)

  /** gettimeofday's microseconds and the seconds rendered as "%Y-%m-%d %H:%M:%S     %Z". */
  datatype Clock = Clock(text: string, usec: int)

  /** The rendering keeps 19 characters of date and time and five spaces ahead of the zone, and fits the buffer. */
  predicate ClockWellFormed(c: Clock) {
    MillisOffset + 4 <= |c.text| < FormattedTimestampLength && Nul !in c.text && 0 <= c.usec < 1000000
  }

  /** sprintf(msbuf, ".%03d", usec / 1000). */
  function MillisText(usec: int): (r: string)
    requires 0 <= usec < 1000000
    ensures |r| == 4 && r[0] == '.' && StringToNat(r[1..], 10) == usec / 1000
    ensures forall i :: 1 <= i < 4 ==> IsDigitIn(r[i], 10)
    ensures Nul !in r
  {
    var digits := ThreeDigits(usec / 1000);
    assert ("." + digits)[1..] == digits;
    "." + digits
  }

  /**
   * The timestamp text after the milliseconds are pasted in: the same length,
   * unchanged outside positions 19..22, and the milliseconds read back there.
   */
  function PasteMillis(text: string, usec: int): (r: string)
    requires MillisOffset + 4 <= |text| && 0 <= usec < 1000000
    ensures |r| == |text|
    ensures forall i :: 0 <= i < |text| && !(MillisOffset <= i < MillisOffset + 4) ==> r[i] == text[i]
    ensures r[MillisOffset] == '.' && StringToNat(r[MillisOffset + 1..MillisOffset + 4], 10) == usec / 1000
    ensures forall i :: MillisOffset + 1 <= i < MillisOffset + 4 ==> IsDigitIn(r[i], 10)
  {
    var r := text[..MillisOffset] + MillisText(usec) + text[MillisOffset + 4..];
    assert r[MillisOffset..MillisOffset + 4] == MillisText(usec);
    assert r[MillisOffset + 1..MillisOffset + 4] == MillisText(usec)[1..];
    r
  }

  /** The fields in order, each followed by its separator, as the formatter appends them. */
  function Terminated(fs: seq<string>): string
  {
    if fs == [] then [] else Terminated(fs[..|fs| - 1]) + fs[|fs| - 1] + [Separator]
  }

  /** The fields joined by the separator. */
  function Joined(fs: seq<string>): string
    requires |fs| > 0
  {
    Terminated(fs[..|fs| - 1]) + fs[|fs| - 1]
  }

  /** A record: the joined fields, then the newline. */
  function Line(fs: seq<string>): string
    requires |fs| > 0
  {
    Joined(fs) + "\n"
  }

  /** What a reader of the file does: cut the text at every separator. */
  function Split(s: string): (parts: seq<string>)
    ensures |parts| >= 1
  {
    if s == [] then [[]]
    else
      var rest := Split(s[1..]);
      if s[0] == Separator then [[]] + rest else [[s[0]] + rest[0]] + rest[1..]
  }

  function Occurrences(s: string, c: char): nat
  {
    if s == [] then 0 else (if s[0] == c then 1 else 0) + Occurrences(s[1..], c)
  }

  /** Separators inside the field values themselves. */
  function SeparatorsInFields(fs: seq<string>): nat
  {
    if fs == [] then 0 else SeparatorsInFields(fs[..|fs| - 1]) + Occurrences(fs[|fs| - 1], Separator)
  }

  lemma {:induction false} OccurrencesAppend(a: string, b: string, c: char)
    ensures Occurrences(a + b, c) == Occurrences(a, c) + Occurrences(b, c)
  {
    if a == [] {
      assert a + b == b;
    } else {
      assert (a + b)[0] == a[0];
      assert (a + b)[1..] == a[1..] + b;
      OccurrencesAppend(a[1..], b, c);
    }
  }

  lemma {:induction false} SeparatorsInTerminated(fs: seq<string>)
    ensures Occurrences(Terminated(fs), Separator) == |fs| + SeparatorsInFields(fs)
  {
    if fs != [] {
      var init, last := fs[..|fs| - 1], fs[|fs| - 1];
      SeparatorsInTerminated(init);
      OccurrencesAppend(Terminated(init), last, Separator);
      OccurrencesAppend(Terminated(init) + last, [Separator], Separator);
    }
  }

  /**
   * A line holds exactly |fs| - 1 separators of its own besides those inside
   * the values, whichever values are empty, and ends in the newline.
   */
  lemma SeparatorsInLine(fs: seq<string>)
    requires |fs| > 0
    ensures Occurrences(Line(fs), Separator) == |fs| - 1 + SeparatorsInFields(fs)
    ensures Line(fs)[|Line(fs)| - 1] == '\n'
  {
    var init, last := fs[..|fs| - 1], fs[|fs| - 1];
    SeparatorsInTerminated(init);
    OccurrencesAppend(Terminated(init), last, Separator);
    OccurrencesAppend(Joined(fs), "\n", Separator);
    assert fs == init + [last];
  }

  /** Cutting at separators gives one part more than there are separators. */
  lemma {:induction false} SplitCount(s: string)
    ensures |Split(s)| == Occurrences(s, Separator) + 1
  {
    if s != [] {
      SplitCount(s[1..]);
    }
  }

  lemma {:induction false} SplitWithoutSeparator(f: string)
    requires Separator !in f
    ensures Split(f) == [f]
  {
    if f != [] {
      SplitWithoutSeparator(f[1..]);
      assert [f[0]] + f[1..] == f;
    }
  }

  lemma {:induction false} SplitAfterField(f: string, s: string)
    requires Separator !in f
    ensures Split(f + [Separator] + s) == [f] + Split(s)
  {
    if f == [] {
      assert f + [Separator] + s == [Separator] + s;
    } else {
      assert (f + [Separator] + s)[1..] == f[1..] + [Separator] + s;
      SplitAfterField(f[1..], s);
      assert [f[0]] + f[1..] == f;
    }
  }

  lemma {:induction false} TerminatedCons(f: string, fs: seq<string>)
    ensures Terminated([f] + fs) == f + [Separator] + Terminated(fs)
    decreases |fs|
  {
    if fs != [] {
      var init, last := fs[..|fs| - 1], fs[|fs| - 1];
      assert ([f] + fs)[..|fs|] == [f] + init;
      TerminatedCons(f, init);
    } else {
      assert [f] + fs == [f];
      assert [f][..0] == [];
    }
  }

  /** When no value holds a separator, a reader cuts a line's text back into exactly its fields. */
  lemma {:induction false} SplitJoined(fs: seq<string>)
    requires |fs| > 0
    requires forall i :: 0 <= i < |fs| ==> Separator !in fs[i]
    ensures Split(Joined(fs)) == fs
    decreases |fs|
  {
    if |fs| == 1 {
      assert fs[..0] == [];
      assert Joined(fs) == fs[0];
      SplitWithoutSeparator(fs[0]);
      assert fs == [fs[0]];
    } else {
      var rest := fs[1..];
      assert forall i :: 0 <= i < |rest| ==> rest[i] == fs[i + 1];
      SplitJoined(rest);
      assert fs == [fs[0]] + rest;
      JoinedCons(fs[0], rest);
      SplitAfterField(fs[0], Joined(rest));
    }
  }

  lemma JoinedCons(f: string, fs: seq<string>)
    requires |fs| > 0
    ensures Joined([f] + fs) == f + [Separator] + Joined(fs)
  {
    var all := [f] + fs;
    assert all[..|all| - 1] == [f] + fs[..|fs| - 1];
    assert all[|all| - 1] == fs[|fs| - 1];
    TerminatedCons(f, fs[..|fs| - 1]);
  }

  /** User and database names: empty without a client connection or a value. */
  function UserField(port: Option<Port>): (r: string)
    ensures (port.Some? ==> NoSeparator(port.value.userName)) ==> Separator !in r
  {
    if port.Some? then port.value.userName.GetOr("") else ""
  }

  function DatabaseField(port: Option<Port>): (r: string)
    ensures (port.Some? ==> NoSeparator(port.value.databaseName)) ==> Separator !in r
  {
    if port.Some? then port.value.databaseName.GetOr("") else ""
  }

  /** Remote host, then ":" and the port when the port is a non-empty string. */
  function RemoteField(port: Option<Port>): (r: string)
    ensures (port.Some? ==> NoSeparator(port.value.remoteHost) && NoSeparator(port.value.remotePort)) ==> Separator !in r
  {
    if port.Some? && port.value.remoteHost.Some? then
      var p := port.value;
      p.remoteHost.value + (if p.remotePort.Some? && p.remotePort.value != "" then ":" + p.remotePort.value else "")
    else ""
  }

  /** Session id: hex of the start time as unsigned long, ".", hex of the pid as unsigned int. */
  function SessionIdField(startTime: int, pid: int): (r: string)
    ensures Separator !in r
  {
    Hex(Unsigned64(startTime)) + "." + Hex(Unsigned32(pid))
  }

  /** The ps display, read up to its first NUL, when there is a client connection. */
  function PsDisplayField(b: Backend): (r: string)
    ensures Separator !in b.psDisplay ==> Separator !in r
  {
    if b.port.Some? then CStr(b.psDisplay) else ""
  }

  /** "%d/%u" of backend id and local transaction id. */
  function VirtualXidField(vxid: Option<VirtualXid>): (r: string)
    ensures Separator !in r
  {
    if vxid.Some? then Decimal(vxid.value.backendId) + "/" + Decimal(Unsigned32(vxid.value.localXid)) else ""
  }

  /** detail_log takes precedence over detail. */
  function DetailField(e: ErrorData): (r: string)
    ensures NoSeparator(e.detailLog) && NoSeparator(e.detail) ==> Separator !in r
  {
    if e.detailLog.Some? then e.detailLog.value else e.detail.GetOr("")
  }

  /** The internal position, printed only beside an internal query and when positive. */
  function InternalPosField(e: ErrorData): (r: string)
    ensures Separator !in r
  {
    if e.internalPos > 0 && e.internalQuery.Some? then Decimal(e.internalPos) else ""
  }

  /** The statement is echoed when there is one and the event does not hide it. */
  predicate PrintStatement(e: ErrorData, b: Backend) {
    b.debugQuery.Some? && !e.hideStmt
  }

  function StatementField(e: ErrorData, b: Backend): (r: string)
    ensures NoSeparator(b.debugQuery) ==> Separator !in r
  {
    if PrintStatement(e, b) then b.debugQuery.value else ""
  }

  function CursorPosField(e: ErrorData, b: Backend): (r: string)
    ensures Separator !in r
  {
    if PrintStatement(e, b) && e.cursorPos > 0 then Decimal(e.cursorPos) else ""
  }

  /** Under verbose error reporting the location names the function too. */
  predicate LocationNamesFunction(e: ErrorData, b: Backend) {
    b.verboseErrors && e.funcName.Some? && e.fileName.Some?
  }

  /**
   * Under verbose error reporting: "func, file:line", or "file:line" without
   * a function name. The first form carries a separator of its own.
   */
  function LocationField(e: ErrorData, b: Backend): (r: string)
    ensures !LocationNamesFunction(e, b) && NoSeparator(e.fileName) ==> Separator !in r
    ensures LocationNamesFunction(e, b) ==> Occurrences(r, Separator) >= 1
  {
    if !b.verboseErrors then ""
    else if e.funcName.Some? && e.fileName.Some? then
      var r := e.funcName.value + ", " + e.fileName.value + ":" + Decimal(e.lineNo);
      OccurrencesAppend(e.funcName.value, ", " + e.fileName.value + ":" + Decimal(e.lineNo), Separator);
      assert r == e.funcName.value + (", " + e.fileName.value + ":" + Decimal(e.lineNo));
      r
    else if e.fileName.Some? then e.fileName.value + ":" + Decimal(e.lineNo)
    else ""
  }

  /**
   * The 22 fields of pgauditlogtofile_create_audit_line, absent values as
   * empty strings: eleven about the process and its transaction, then eleven
   * about the event.
   */
  function AuditFields(e: ErrorData, exclude: nat, b: Backend, logTime: string, startTime: string,
                       pid: int, lineNumber: int): (fs: seq<string>)
    requires exclude <= |e.message|
    ensures |fs| == FieldCount
    ensures fs[MessageField] == e.message[exclude..]
    ensures ParseDecimal(fs[LineNumberField]) == lineNumber
  {
    var process := ProcessFields(b, logTime, startTime, pid, lineNumber);
    var event := EventFields(e, exclude, b);
    assert (process + event)[MessageField] == event[MessageField - 11];
    process + event
  }

  /**
   * Log time, user, database, pid, remote host[:port], session id, line
   * number, ps display, session start, virtual xid, xid.
   */
  function ProcessFields(b: Backend, logTime: string, startTime: string, pid: int, lineNumber: int): (fs: seq<string>)
    ensures |fs| == 11
    ensures ParseDecimal(fs[LineNumberField]) == lineNumber
  {
    DecimalRoundTrip(lineNumber);
    [ logTime,
      UserField(b.port),
      DatabaseField(b.port),
      Decimal(pid),
      RemoteField(b.port),
      SessionIdField(b.startTime, pid),
      Decimal(lineNumber),
      PsDisplayField(b),
      startTime,
      VirtualXidField(b.vxid),
      Decimal(Unsigned32(b.topXid))
    ]
  }

  /**
   * SQL state, message without its first `exclude` characters, detail, hint,
   * internal query and position, context, statement and cursor position,
   * location, application name.
   */
  function EventFields(e: ErrorData, exclude: nat, b: Backend): (fs: seq<string>)
    requires exclude <= |e.message|
    ensures |fs| == 11
    ensures fs[MessageField - 11] == e.message[exclude..]
  {
    [ e.sqlState,
      e.message[exclude..],
      DetailField(e),
      e.hint.GetOr(""),
      e.internalQuery.GetOr(""),
      InternalPosField(e),
      e.context.GetOr(""),
      StatementField(e, b),
      CursorPosField(e, b),
      LocationField(e, b),
      b.applicationName.GetOr("")
    ]
  }

  predicate NoSeparator(s: Option<string>) {
    s.Some? ==> Separator !in s.value
  }

  /** No text the formatter copies holds a separator (numbers never do). */
  predicate SeparatorFree(e: ErrorData, exclude: nat, b: Backend, logTime: string, startTime: string)
    requires exclude <= |e.message|
  {
    && Separator !in logTime && Separator !in startTime && Separator !in e.sqlState
    && Separator !in e.message[exclude..] && Separator !in b.psDisplay
    && (b.port.Some? ==> NoSeparator(b.port.value.userName) && NoSeparator(b.port.value.databaseName)
                         && NoSeparator(b.port.value.remoteHost) && NoSeparator(b.port.value.remotePort))
    && NoSeparator(e.detailLog) && NoSeparator(e.detail) && NoSeparator(e.hint)
    && NoSeparator(e.internalQuery) && NoSeparator(e.context) && NoSeparator(b.debugQuery)
    && NoSeparator(e.fileName) && NoSeparator(b.applicationName) && !LocationNamesFunction(e, b)
  }

  /**
   * The positional format: when no copied text holds a comma, a reader
   * splitting a record's line at commas gets back exactly the 22 fields,
   * however many of them are empty.
   */
  lemma RecordSplitsIntoFields(e: ErrorData, exclude: nat, b: Backend, logTime: string, startTime: string,
                               pid: int, lineNumber: int)
    requires exclude <= |e.message|
    requires SeparatorFree(e, exclude, b, logTime, startTime)
    ensures var fs := AuditFields(e, exclude, b, logTime, startTime, pid, lineNumber);
      Split(Joined(fs)) == fs && |Split(Joined(fs))| == FieldCount
  {
    var process := ProcessFields(b, logTime, startTime, pid, lineNumber);
    var event := EventFields(e, exclude, b);
    ProcessFieldsSeparatorFree(e, exclude, b, logTime, startTime, pid, lineNumber);
    EventFieldsSeparatorFree(e, exclude, b, logTime, startTime);
    var fs := process + event;
    assert forall i :: 11 <= i < 22 ==> fs[i] == event[i - 11];
    SplitJoined(fs);
  }

  lemma ProcessFieldsSeparatorFree(e: ErrorData, exclude: nat, b: Backend, logTime: string, startTime: string,
                                   pid: int, lineNumber: int)
    requires exclude <= |e.message|
    requires SeparatorFree(e, exclude, b, logTime, startTime)
    ensures forall i :: 0 <= i < 11 ==> Separator !in ProcessFields(b, logTime, startTime, pid, lineNumber)[i]
  {
  }

  lemma EventFieldsSeparatorFree(e: ErrorData, exclude: nat, b: Backend, logTime: string, startTime: string)
    requires exclude <= |e.message|
    requires SeparatorFree(e, exclude, b, logTime, startTime)
    ensures forall i :: 0 <= i < 11 ==> Separator !in EventFields(e, exclude, b)[i]
  {
  }

  /**
   * Commas in the message are not escaped: a message holding one makes a
   * reader cut the line into more than 22 parts ("AUDIT: foo,bar" gives the
   * message field "foo,bar").
   */
  lemma UnescapedCommaInMessage(e: ErrorData, exclude: nat, b: Backend, logTime: string, startTime: string,
                                pid: int, lineNumber: int)
    requires exclude <= |e.message| && Separator in e.message[exclude..]
    ensures var fs := AuditFields(e, exclude, b, logTime, startTime, pid, lineNumber);
      |Split(Line(fs))| == FieldCount + SeparatorsInFields(fs) && |Split(Line(fs))| > FieldCount
  {
    var fs := AuditFields(e, exclude, b, logTime, startTime, pid, lineNumber);
    SeparatorsInLine(fs);
    SplitCount(Line(fs));
    SeparatorsAtLeast(fs, MessageField);
    OccursWhenIn(fs[MessageField], Separator);
  }

  lemma {:induction false} OccursWhenIn(s: string, c: char)
    requires c in s
    ensures Occurrences(s, c) >= 1
  {
    if s[0] != c {
      assert c in s[1..] by {
        var k :| 0 <= k < |s| && s[k] == c;
        assert s[1..][k - 1] == c;
      }
      OccursWhenIn(s[1..], c);
    }
  }

  lemma {:induction false} SeparatorsAtLeast(fs: seq<string>, i: nat)
    requires i < |fs|
    ensures SeparatorsInFields(fs) >= Occurrences(fs[i], Separator)
    decreases |fs|
  {
    if i < |fs| - 1 {
      SeparatorsAtLeast(fs[..|fs| - 1], i);
    }
  }

  /**
   * appendStringInfoString followed by appendStringInfoCharMacro(buf, ','):
   * a buffer holding the first k fields of `spec` then holds k + 1.
   */
  method AppendField(buf: string, ghost spec: seq<string>, ghost k: nat, field: string) returns (buf': string)
    requires k < |spec| && buf == Terminated(spec[..k]) && field == spec[k]
    ensures buf' == Terminated(spec[..k + 1])
  {
    buf' := buf + field + [Separator];
    assert spec[..k + 1][..k] == spec[..k];
  }

  /** Lines 527-554 of the formatter: log time, user, database, pid, remote host and port. */
  method AppendClientFields(ghost spec: seq<string>, b: Backend, logTime: string, startTime: string,
                            pid: int, lineNumber: int) returns (buf: string)
    requires |spec| == FieldCount && spec[..11] == ProcessFields(b, logTime, startTime, pid, lineNumber)
    ensures buf == Terminated(spec[..5])
  {
    ghost var process := ProcessFields(b, logTime, startTime, pid, lineNumber);
    assert spec[0] == process[0] && spec[1] == process[1] && spec[2] == process[2];
    assert spec[3] == process[3] && spec[4] == process[4];
    assert spec[..0] == [];
    buf := [];
    buf := AppendField(buf, spec, 0, logTime);

    var text := "";
    if b.port.Some? && b.port.value.userName.Some? { text := b.port.value.userName.value; }
    buf := AppendField(buf, spec, 1, text);

    text := "";
    if b.port.Some? && b.port.value.databaseName.Some? { text := b.port.value.databaseName.value; }
    buf := AppendField(buf, spec, 2, text);

    buf := AppendField(buf, spec, 3, Decimal(pid));

    text := "";
    if b.port.Some? && b.port.value.remoteHost.Some? {
      text := b.port.value.remoteHost.value;
      if b.port.value.remotePort.Some? && b.port.value.remotePort.value != "" {
        text := text + ":" + b.port.value.remotePort.value;
      }
    }
    buf := AppendField(buf, spec, 4, text);
  }

  /** Lines 556-592 of the formatter: session id, line number, ps display, session start, transaction ids. */
  method AppendSessionFields(buf0: string, ghost spec: seq<string>, b: Backend, logTime: string, startTime: string,
                             pid: int, lineNumber: int) returns (buf: string)
    requires |spec| == FieldCount && spec[..11] == ProcessFields(b, logTime, startTime, pid, lineNumber)
    requires buf0 == Terminated(spec[..5])
    ensures buf == Terminated(spec[..11])
  {
    ghost var process := ProcessFields(b, logTime, startTime, pid, lineNumber);
    assert spec[5] == process[5] && spec[6] == process[6] && spec[7] == process[7];
    assert spec[8] == process[8] && spec[9] == process[9] && spec[10] == process[10];
    buf := AppendField(buf0, spec, 5, Hex(Unsigned64(b.startTime)) + "." + Hex(Unsigned32(pid)));
    buf := AppendField(buf, spec, 6, Decimal(lineNumber));

    var text := "";
    if b.port.Some? { text := CStr(b.psDisplay); }
    buf := AppendField(buf, spec, 7, text);

    buf := AppendField(buf, spec, 8, startTime);

    text := "";
    if b.vxid.Some? {
      text := Decimal(b.vxid.value.backendId) + "/" + Decimal(Unsigned32(b.vxid.value.localXid));
    }
    buf := AppendField(buf, spec, 9, text);

    buf := AppendField(buf, spec, 10, Decimal(Unsigned32(b.topXid)));
  }

  /** Lines 594-617 of the formatter: SQL state, message, detail, hint, internal query. */
  method AppendMessageFields(buf0: string, ghost spec: seq<string>, e: ErrorData, exclude: nat, b: Backend)
      returns (buf: string)
    requires exclude <= |e.message| && |spec| == FieldCount && spec[11..] == EventFields(e, exclude, b)
    requires buf0 == Terminated(spec[..11])
    ensures buf == Terminated(spec[..16])
  {
    ghost var event := EventFields(e, exclude, b);
    assert spec[11] == event[0] && spec[12] == event[1] && spec[13] == event[2];
    assert spec[14] == event[3] && spec[15] == event[4];
    buf := AppendField(buf0, spec, 11, e.sqlState);
    buf := AppendField(buf, spec, 12, e.message[exclude..]);

    var text := "";
    if e.detailLog.Some? { text := e.detailLog.value; }
    else if e.detail.Some? { text := e.detail.value; }
    buf := AppendField(buf, spec, 13, text);

    text := "";
    if e.hint.Some? { text := e.hint.value; }
    buf := AppendField(buf, spec, 14, text);

    text := "";
    if e.internalQuery.Some? { text := e.internalQuery.value; }
    buf := AppendField(buf, spec, 15, text);
  }

  /** Lines 619-653 of the formatter: internal position, context, statement, cursor, location. */
  method AppendContextFields(buf0: string, ghost spec: seq<string>, e: ErrorData, exclude: nat, b: Backend)
      returns (buf: string)
    requires exclude <= |e.message| && |spec| == FieldCount && spec[11..] == EventFields(e, exclude, b)
    requires buf0 == Terminated(spec[..16])
    ensures buf == Terminated(spec[..21])
  {
    ghost var event := EventFields(e, exclude, b);
    assert spec[16] == event[5] && spec[17] == event[6] && spec[18] == event[7];
    assert spec[19] == event[8] && spec[20] == event[9];
    var text := "";
    if e.internalPos > 0 && e.internalQuery.Some? { text := Decimal(e.internalPos); }
    buf := AppendField(buf0, spec, 16, text);

    text := "";
    if e.context.Some? { text := e.context.value; }
    buf := AppendField(buf, spec, 17, text);

    var printStmt := false;
    if b.debugQuery.Some? && !e.hideStmt { printStmt := true; }
    text := "";
    if printStmt { text := b.debugQuery.value; }
    buf := AppendField(buf, spec, 18, text);
    text := "";
    if printStmt && e.cursorPos > 0 { text := Decimal(e.cursorPos); }
    buf := AppendField(buf, spec, 19, text);

    text := "";
    if b.verboseErrors {
      if e.funcName.Some? && e.fileName.Some? {
        text := e.funcName.value + ", " + e.fileName.value + ":" + Decimal(e.lineNo);
      } else if e.fileName.Some? {
        text := e.fileName.value + ":" + Decimal(e.lineNo);
      }
    }
    buf := AppendField(buf, spec, 20, text);
  }

  /**
   * The static state of pgauditlogtofile_create_audit_line and the two
   * timestamp buffers it fills.
   */
  class LineFormatter {
    var logLineNumber: int
    var logMyPid: int
    var formattedStartTime: string
    const formattedLogTime: array<char>

    ghost predicate Valid()
      reads this
    {
      formattedLogTime.Length == FormattedTimestampLength
    }

    /** A process that has not formatted a line: statics zeroed. */
    constructor ()
      ensures Valid() && fresh(formattedLogTime)
      ensures logLineNumber == 0 && logMyPid == 0 && formattedStartTime == []
      ensures forall i :: 0 <= i < formattedLogTime.Length ==> formattedLogTime[i] == Nul
    {
      logLineNumber := 0;
      logMyPid := 0;
      formattedStartTime := [];
      formattedLogTime := new char[FormattedTimestampLength](_ => Nul);
    }

    /**
     * pgauditlogtofile_format_log_time: pg_strftime writes the rendering and
     * its NUL into the buffer, then four bytes ".mmm" are copied over
     * positions 19..22.
     */
    method FormatLogTime(clock: Clock)
      requires Valid() && ClockWellFormed(clock)
      modifies formattedLogTime
      ensures formattedLogTime[..|clock.text|] == PasteMillis(clock.text, clock.usec)
      ensures formattedLogTime[|clock.text|] == Nul
      ensures CStr(formattedLogTime[..]) == PasteMillis(clock.text, clock.usec)
      ensures formattedLogTime[|clock.text| + 1..] == old(formattedLogTime[|clock.text| + 1..])
    {
      var n := |clock.text|;
      forall i | 0 <= i < n {
        formattedLogTime[i] := clock.text[i];
      }
      formattedLogTime[n] := Nul;
      var msbuf := MillisText(clock.usec);
      forall i | 0 <= i < 4 {
        formattedLogTime[MillisOffset + i] := msbuf[i];
      }
      var pasted := PasteMillis(clock.text, clock.usec);
      assert formattedLogTime[..n] == pasted;
      assert formattedLogTime[..] == pasted + [Nul] + formattedLogTime[n + 1..];
      assert Nul !in pasted by {
        forall i | 0 <= i < n ensures pasted[i] != Nul {
          if MillisOffset <= i < MillisOffset + 4 {
            assert pasted[i] == msbuf[i - MillisOffset];
          } else {
            assert clock.text[i] in clock.text;
          }
        }
      }
      CStrOfTerminated(pasted, formattedLogTime[n + 1..]);
    }

    /**
     * pgauditlogtofile_create_audit_line: on a pid change the counter restarts
     * and the session start is rendered again; the counter then advances by
     * one and the 22 fields are appended with their separators.
     */
    method CreateAuditLine(e: ErrorData, exclude: nat, b: Backend, clock: Clock) returns (line: string)
      requires Valid() && ClockWellFormed(clock) && exclude <= |e.message|
      modifies this, formattedLogTime
      ensures Valid() && logMyPid == b.pid
      ensures old(logMyPid) != b.pid ==> logLineNumber == 1 && formattedStartTime == b.startTimeText
      ensures old(logMyPid) == b.pid ==>
        logLineNumber == old(logLineNumber) + 1 && formattedStartTime == old(formattedStartTime)
      ensures line == Line(AuditFields(e, exclude, b, PasteMillis(clock.text, clock.usec),
                                       formattedStartTime, logMyPid, logLineNumber))
    {
      if logMyPid != b.pid {
        logLineNumber := 0;
        logMyPid := b.pid;
        formattedStartTime := b.startTimeText;
      }
      logLineNumber := logLineNumber + 1;

      FormatLogTime(clock);
      var logTime := CStr(formattedLogTime[..]);
      ghost var spec := AuditFields(e, exclude, b, logTime, formattedStartTime, logMyPid, logLineNumber);
      assert spec[..11] == ProcessFields(b, logTime, formattedStartTime, logMyPid, logLineNumber);
      assert spec[11..] == EventFields(e, exclude, b);
      var buf := AppendClientFields(spec, b, logTime, formattedStartTime, logMyPid, logLineNumber);
      buf := AppendSessionFields(buf, spec, b, logTime, formattedStartTime, logMyPid, logLineNumber);
      buf := AppendMessageFields(buf, spec, e, exclude, b);
      buf := AppendContextFields(buf, spec, e, exclude, b);

      var text := "";
      if b.applicationName.Some? { text := b.applicationName.value; }
      line := buf + text + "\n";
      assert text == spec[21];
    }
  }
}
