/**
 * The coordinator of logtofile.c: the force-rotation flag in shared memory,
 * the per-process schedule and filenames, the lazily opened audit file, and
 * the emit_log hook that decides which events go to it.
 */
module LogToFile {
  import opened Wrappers
  import opened Text
  import opened RotationClock
  import opened Interception
  import opened AuditLine

  /**
   * What a process sees of shared memory: no segment yet (the postmaster
   * while it loads shared_preload_libraries), a segment without the
   * extension's struct (the library brought in later by LOAD, so its
   * shmem_startup hook never ran), or both.
   */
  datatype SharedMemory = Detached | SegmentOnly | Attached

  /** What one call of pgauditlogtofile_request_rotation amounts to. */
  datatype RequestOutcome = Skipped | NullDereference | FlagSet

  /**
   * pgauditlogtofile_request_rotation as written: it returns early only when
   * no segment is mapped, then reads through the address of the struct, still NULL
   * when the segment exists but the struct was never looked up.
   */
  function RequestRotationAsWritten(shm: SharedMemory): (r: RequestOutcome)
    ensures r == NullDereference <==> shm == SegmentOnly
    ensures r == Skipped <==> shm == Detached
  {
    if shm == Detached then Skipped
    else if shm == SegmentOnly then NullDereference
    else FlagSet
  }

  /**
   * Loading the library with LOAD runs the assign hooks of its settings while
   * they are defined; the guard lets the call through and the NULL struct is
   * read.
   */
  lemma LoadedLibraryAssignDereferencesNull()
    ensures RequestRotationAsWritten(SegmentOnly) == NullDereference
  {
  }

  /** The request guarded on the struct itself, which is what the early return is for. */
  function RequestRotationGuarded(shm: SharedMemory): (r: RequestOutcome)
    ensures r != NullDereference
    ensures r == FlagSet <==> shm == Attached
  {
    if shm == Attached then FlagSet else Skipped
  }

  /** The guarded request differs from the code as written only where the latter faults. */
  lemma GuardedRequestAgreesWhereDefined(shm: SharedMemory)
    ensures RequestRotationAsWritten(shm) != NullDereference ==>
      RequestRotationAsWritten(shm) == RequestRotationGuarded(shm)
    ensures RequestRotationAsWritten(shm) == NullDereference ==> RequestRotationGuarded(shm) == Skipped
  {
  }

  /** One fwrite into an audit file: the file it went to and the bytes that reached it. */
  datatype Append = Append(file: string, bytes: string)

  /**
   * The values record_audit starts from: the shared flag, the schedule, the
   * derived and in-use names, the file state, the writes so far and the
   * formatter's statics.
   */
  datatype Snapshot = Snapshot(forceRotation: bool, nextRotationTime: int, filename: string, filenameInUse: string,
                               fileOpen: bool, appends: seq<Append>, logLineNumber: int, logMyPid: int,
                               formattedStartTime: string)

  /** The bytes fwrite reports written when at most `capacity` fit. */
  function Written(line: string, capacity: nat): (n: nat)
    ensures n <= |line| && n <= capacity
    ensures n == |line| <==> |line| <= capacity
  {
    if |line| <= capacity then |line| else capacity
  }

  /** The order of pgauditlogtofile_needs_rotate_file: forced, then due, then renamed. */
  predicate RotationDue(force: bool, now: int, nextRotation: int, inUse: string, name: string) {
    force || now >= nextRotation || inUse != name
  }

  /**
   * The extension's struct in shared memory: the force-rotation flag, one
   * for all processes. Its LWLock is left out; each call here runs alone.
   */
  class RotationFlag {
    var forceRotation: bool

    /** ShmemInitStruct's first initialisation in shmem_startup. */
    constructor ()
      ensures !forceRotation
    {
      forceRotation := false;
    }
  }

  /**
   * The globals of logtofile.c seen by one process: the settings, the shared
   * force flag, the schedule, the derived filename, the name of the open file
   * and the formatter's statics. `render` and `utcOffset` stand for
   * pg_strftime and pg_localtime in the server's log time zone.
   */
  class AuditLogToFile {
    var directory: string
    var pattern: string
    var rotationAge: int
    var logConnections: bool
    var logDisconnections: bool
    const render: (string, int) -> string
    const utcOffset: int -> int

    var shm: SharedMemory
    const shared: RotationFlag
    var nextRotationTime: int
    var filename: string
    var filenameInUse: string
    var fileOpen: bool
    const formatter: LineFormatter

    /** Every fwrite the process has made, in order. */
    ghost var appends: seq<Append>

    /** The file being written to is always the one last derived. */
    ghost predicate Valid()
      reads this, formatter
    {
      && RotationAgeAccepted(rotationAge)
      && formatter.Valid()
      && (fileOpen ==> filenameInUse == filename)
    }

    /** The rotation interval in seconds. */
    function Interval(): (seconds: int)
      reads this
      requires RotationAgeAccepted(rotationAge)
      ensures 0 < seconds <= IntMax
    {
      AcceptedRotationAgeIsUsable(rotationAge);
      rotationAge * SecsPerMinute
    }

    /**
     * A process as it starts: with the struct in place, shmem_startup derives
     * the schedule and filename from `now` (a forked worker inherits them);
     * otherwise the globals keep their zero values. `shared` is the struct the
     * process reaches once attached.
     */
    constructor (shm: SharedMemory, shared: RotationFlag, directory: string, pattern: string, rotationAge: int,
                 logConnections: bool, logDisconnections: bool,
                 render: (string, int) -> string, utcOffset: int -> int, now: int)
      requires RotationAgeAccepted(rotationAge)
      ensures Valid() && fresh(formatter) && fresh(formatter.formattedLogTime)
      ensures this.shm == shm && this.shared == shared && this.directory == directory && this.pattern == pattern
      ensures this.rotationAge == rotationAge && this.logConnections == logConnections
      ensures this.logDisconnections == logDisconnections
      ensures this.render == render && this.utcOffset == utcOffset
      ensures !fileOpen && filenameInUse == [] && appends == []
      ensures shm == Attached ==>
        && nextRotationTime == NextRotationTime(now, rotationAge * SecsPerMinute, utcOffset(now))
        && filename == AuditFilename(directory, pattern, WindowStart(nextRotationTime, rotationAge), render)
      ensures shm != Attached ==> nextRotationTime == 0 && filename == []
    {
      this.shm := shm;
      this.shared := shared;
      this.directory := directory;
      this.pattern := pattern;
      this.rotationAge := rotationAge;
      this.logConnections := logConnections;
      this.logDisconnections := logDisconnections;
      this.render := render;
      this.utcOffset := utcOffset;
      filenameInUse := [];
      fileOpen := false;
      appends := [];
      formatter := new LineFormatter();
      if shm == Attached {
        AcceptedRotationAgeIsUsable(rotationAge);
        var next := NextRotationTime(now, rotationAge * SecsPerMinute, utcOffset(now));
        nextRotationTime := next;
        filename := AuditFilename(directory, pattern, WindowStart(next, rotationAge), render);
      } else {
        nextRotationTime := 0;
        filename := [];
      }
    }

    /** pgauditlogtofile_request_rotation with the corrected guard. */
    method RequestRotation()
      modifies shared
      ensures RequestRotationGuarded(shm) == FlagSet ==> shared.forceRotation
      ensures RequestRotationGuarded(shm) == Skipped ==> shared.forceRotation == old(shared.forceRotation)
      ensures shm == old(shm) && nextRotationTime == old(nextRotationTime)
      ensures filename == old(filename) && filenameInUse == old(filenameInUse) && fileOpen == old(fileOpen)
      ensures directory == old(directory) && pattern == old(pattern) && rotationAge == old(rotationAge)
      ensures logConnections == old(logConnections) && logDisconnections == old(logDisconnections)
      ensures appends == old(appends)
    {
      if shm != Attached {
        return;
      }
      if !shared.forceRotation {
        shared.forceRotation := true;
      }
    }

    /** The assign hook of pgaudit.log_directory. */
    method SetDirectory(newValue: string)
      requires Valid()
      modifies this, shared
      ensures Valid() && directory == newValue
      ensures shm == Attached ==> shared.forceRotation
      ensures shm != Attached ==> shared.forceRotation == old(shared.forceRotation)
      ensures shm == old(shm) && filename == old(filename) && nextRotationTime == old(nextRotationTime)
      ensures filenameInUse == old(filenameInUse) && fileOpen == old(fileOpen)
      ensures pattern == old(pattern) && rotationAge == old(rotationAge) && appends == old(appends)
      ensures logConnections == old(logConnections) && logDisconnections == old(logDisconnections)
    {
      RequestRotation();
      directory := newValue;
    }

    /** The assign hook of pgaudit.log_filename. */
    method SetFilename(newValue: string)
      requires Valid()
      modifies this, shared
      ensures Valid() && pattern == newValue
      ensures shm == Attached ==> shared.forceRotation
      ensures shm != Attached ==> shared.forceRotation == old(shared.forceRotation)
      ensures shm == old(shm) && filename == old(filename) && nextRotationTime == old(nextRotationTime)
      ensures filenameInUse == old(filenameInUse) && fileOpen == old(fileOpen)
      ensures directory == old(directory) && rotationAge == old(rotationAge) && appends == old(appends)
      ensures logConnections == old(logConnections) && logDisconnections == old(logDisconnections)
    {
      RequestRotation();
      pattern := newValue;
    }

    /**
     * The assign hook of pgaudit.log_rotation_age. The schedule is not
     * recomputed: the next forced rotation names the window that ends at the
     * old boundary and is one new interval long.
     */
    method SetRotationAge(newValue: int)
      requires Valid() && RotationAgeAccepted(newValue)
      modifies this, shared
      ensures Valid() && rotationAge == newValue
      ensures shm == Attached ==> shared.forceRotation
      ensures shm != Attached ==> shared.forceRotation == old(shared.forceRotation)
      ensures shm == old(shm) && filename == old(filename) && nextRotationTime == old(nextRotationTime)
      ensures filenameInUse == old(filenameInUse) && fileOpen == old(fileOpen)
      ensures directory == old(directory) && pattern == old(pattern) && appends == old(appends)
      ensures logConnections == old(logConnections) && logDisconnections == old(logDisconnections)
    {
      RequestRotation();
      rotationAge := newValue;
    }

    /** pgauditlogtofile_calculate_next_rotation_time, with the clock read as `now`. */
    method CalculateNextRotationTime(now: int)
      requires Valid()
      modifies this
      ensures Valid()
      ensures nextRotationTime == NextRotationTime(now, Interval(), utcOffset(now))
      ensures nextRotationTime > now
      ensures now + utcOffset(now) >= 0 ==> nextRotationTime <= now + Interval()
      ensures shm == old(shm)
      ensures filename == old(filename) && filenameInUse == old(filenameInUse) && fileOpen == old(fileOpen)
      ensures directory == old(directory) && pattern == old(pattern) && rotationAge == old(rotationAge)
      ensures logConnections == old(logConnections) && logDisconnections == old(logDisconnections)
      ensures appends == old(appends)
    {
      nextRotationTime := NextRotationTime(now, Interval(), utcOffset(now));
    }

    /** pgauditlogtofile_calculate_filename: the path for the window that ends at the next rotation. */
    method CalculateFilename()
      modifies this
      ensures filename == AuditFilename(directory, pattern, WindowStart(nextRotationTime, rotationAge), render)
      ensures filename[..|directory|] == directory && filename[|directory|] == '/'
      ensures shm == old(shm) && nextRotationTime == old(nextRotationTime)
      ensures filenameInUse == old(filenameInUse) && fileOpen == old(fileOpen)
      ensures directory == old(directory) && pattern == old(pattern) && rotationAge == old(rotationAge)
      ensures logConnections == old(logConnections) && logDisconnections == old(logDisconnections)
      ensures appends == old(appends)
    {
      filename := AuditFilename(directory, pattern, WindowStart(nextRotationTime, rotationAge), render);
      AuditFilenameParts(directory, pattern, WindowStart(nextRotationTime, rotationAge), render);
    }

    /**
     * pgauditlogtofile_needs_rotate_file: a pending force is consumed first;
     * else a due schedule is advanced; else the file in use is compared by
     * name with the derived one.
     */
    method NeedsRotateFile(now: int) returns (rotate: bool)
      requires Valid() && shm == Attached
      modifies this, shared
      ensures Valid() && !shared.forceRotation
      ensures rotate == RotationDue(old(shared.forceRotation), now, old(nextRotationTime), filenameInUse, filename)
      ensures old(shared.forceRotation) ==> nextRotationTime == old(nextRotationTime)
      ensures !old(shared.forceRotation) && now >= old(nextRotationTime) ==>
        nextRotationTime == NextRotationTime(now, Interval(), utcOffset(now)) && nextRotationTime > now
      ensures !old(shared.forceRotation) && now < old(nextRotationTime) ==> nextRotationTime == old(nextRotationTime)
      ensures old(fileOpen) && !old(shared.forceRotation) && now < old(nextRotationTime) ==> !rotate
      ensures shm == old(shm)
      ensures filename == old(filename) && filenameInUse == old(filenameInUse) && fileOpen == old(fileOpen)
      ensures directory == old(directory) && pattern == old(pattern) && rotationAge == old(rotationAge)
      ensures logConnections == old(logConnections) && logDisconnections == old(logDisconnections)
      ensures appends == old(appends)
    {
      if shared.forceRotation {
        shared.forceRotation := false;
        return true;
      }
      if now >= nextRotationTime {
        CalculateNextRotationTime(now);
        return true;
      }
      if filenameInUse != filename {
        return true;
      }
      return false;
    }

    /** pgauditlogtofile_close_file. */
    method CloseFile()
      modifies this
      ensures !fileOpen
      ensures shm == old(shm) && nextRotationTime == old(nextRotationTime)
      ensures filename == old(filename) && filenameInUse == old(filenameInUse)
      ensures directory == old(directory) && pattern == old(pattern) && rotationAge == old(rotationAge)
      ensures logConnections == old(logConnections) && logDisconnections == old(logDisconnections)
      ensures appends == old(appends)
    {
      if fileOpen {
        fileOpen := false;
      }
    }

    /**
     * pgauditlogtofile_open_file: fopen in append mode of the derived name,
     * whose outcome is `succeeds`; on success that name becomes the one in use.
     */
    method OpenFile(succeeds: bool) returns (success: bool)
      requires !fileOpen
      modifies this
      ensures success == succeeds && fileOpen == succeeds
      ensures succeeds ==> filenameInUse == filename
      ensures !succeeds ==> filenameInUse == old(filenameInUse)
      ensures shm == old(shm) && nextRotationTime == old(nextRotationTime)
      ensures filename == old(filename)
      ensures directory == old(directory) && pattern == old(pattern) && rotationAge == old(rotationAge)
      ensures logConnections == old(logConnections) && logDisconnections == old(logDisconnections)
      ensures appends == old(appends)
    {
      success := true;
      if succeeds {
        fileOpen := true;
        filenameInUse := filename;
      } else {
        success := false;
      }
    }

    /**
     * pgauditlogtofile_write_audit: the line is formatted and handed to fwrite,
     * which writes at most `capacity` bytes to the open file; success is a
     * complete write.
     */
    method WriteAudit(e: ErrorData, exclude: nat, b: Backend, clock: Clock, capacity: nat)
        returns (ok: bool, line: string)
      requires Valid() && fileOpen && exclude <= |e.message| && ClockWellFormed(clock)
      modifies this, formatter, formatter.formattedLogTime
      ensures Valid()
      ensures line == Line(AuditFields(e, exclude, b, PasteMillis(clock.text, clock.usec),
                                       formatter.formattedStartTime, formatter.logMyPid, formatter.logLineNumber))
      ensures formatter.logMyPid == b.pid
      ensures old(formatter.logMyPid) != b.pid ==> formatter.logLineNumber == 1
      ensures old(formatter.logMyPid) == b.pid ==> formatter.logLineNumber == old(formatter.logLineNumber) + 1
      ensures old(formatter.logMyPid) != b.pid ==> formatter.formattedStartTime == b.startTimeText
      ensures old(formatter.logMyPid) == b.pid ==> formatter.formattedStartTime == old(formatter.formattedStartTime)
      ensures appends == old(appends) + [Append(filenameInUse, line[..Written(line, capacity)])]
      ensures ok <==> |line| <= capacity
      ensures shm == old(shm) && nextRotationTime == old(nextRotationTime)
      ensures filename == old(filename) && filenameInUse == old(filenameInUse) && fileOpen == old(fileOpen)
      ensures directory == old(directory) && pattern == old(pattern) && rotationAge == old(rotationAge)
      ensures logConnections == old(logConnections) && logDisconnections == old(logDisconnections)
    {
      line := formatter.CreateAuditLine(e, exclude, b, clock);
      var rc := Written(line, capacity);
      appends := appends + [Append(filenameInUse, line[..rc])];
      ok := rc == |line|;
    }

    /**
     * The first step of pgauditlogtofile_record_audit: when a rotation is
     * needed, derive the filename for the window ending at the schedule and
     * close the file. Only a due schedule is advanced past `now`, so only
     * then is the window the one holding `now`.
     */
    method RotateIfNeeded(now: int) returns (rotated: bool)
      requires Valid() && shm == Attached
      modifies this, shared
      ensures Valid() && !shared.forceRotation
      ensures rotated == RotationDue(old(shared.forceRotation), now, old(nextRotationTime), old(filenameInUse), old(filename))
      ensures rotated ==>
        filename == AuditFilename(directory, pattern, WindowStart(nextRotationTime, rotationAge), render) && !fileOpen
      ensures !rotated ==> filename == old(filename) && fileOpen == old(fileOpen)
      ensures old(shared.forceRotation) ==> nextRotationTime == old(nextRotationTime)
      ensures !old(shared.forceRotation) && now >= old(nextRotationTime) ==>
        nextRotationTime == NextRotationTime(now, Interval(), utcOffset(now))
      ensures !old(shared.forceRotation) && now < old(nextRotationTime) ==> nextRotationTime == old(nextRotationTime)
      ensures !old(shared.forceRotation) && now >= old(nextRotationTime) && now + utcOffset(now) >= 0 ==>
        WindowStart(nextRotationTime, rotationAge) <= now < nextRotationTime
      ensures shm == old(shm) && filenameInUse == old(filenameInUse) && appends == old(appends)
      ensures directory == old(directory) && pattern == old(pattern) && rotationAge == old(rotationAge)
      ensures logConnections == old(logConnections) && logDisconnections == old(logDisconnections)
    {
      rotated := NeedsRotateFile(now);
      if rotated {
        CalculateFilename();
        CloseFile();
        if !old(shared.forceRotation) && now >= old(nextRotationTime) && now + utcOffset(now) >= 0 {
          WindowContainsNow(now, rotationAge, utcOffset(now));
        }
      }
    }

    /** The part of the state one record_audit reads or changes. */
    ghost function Snap(): Snapshot
      reads this, shared, formatter
    {
      Snapshot(shared.forceRotation, nextRotationTime, filename, filenameInUse, fileOpen, appends,
               formatter.logLineNumber, formatter.logMyPid, formatter.formattedStartTime)
    }

    /**
     * What one record_audit leaves behind, against the state `s0` before it:
     * the force is consumed; `rotated` is the rotation decision, which
     * re-derives the filename for the window ending at the schedule; the
     * schedule is kept on a force, advanced when due and kept otherwise; a
     * file is open after the call iff the old one was kept or the open
     * succeeded; with no file nothing is written and the formatter's statics
     * are untouched; with one, the formatted line, or as much of it as fits,
     * is appended to the derived filename, `ok` says the whole of it was
     * written, and the pid, the counter and the session start are updated as
     * the formatter does.
     */
    ghost predicate RecordedAudit(s0: Snapshot, e: ErrorData, exclude: nat, b: Backend, clock: Clock, now: int,
                                  openSucceeds: bool, capacity: nat, ok: bool, rotated: bool, line: string)
      reads this, shared, formatter
    {
      && RotationAgeAccepted(rotationAge) && exclude <= |e.message| && ClockWellFormed(clock)
      && !shared.forceRotation
      && rotated == RotationDue(s0.forceRotation, now, s0.nextRotationTime, s0.filenameInUse, s0.filename)
      && (rotated ==> filename == AuditFilename(directory, pattern, WindowStart(nextRotationTime, rotationAge), render))
      && (!rotated ==> filename == s0.filename)
      && (s0.forceRotation ==> nextRotationTime == s0.nextRotationTime)
      && (!s0.forceRotation && now >= s0.nextRotationTime ==>
            nextRotationTime == NextRotationTime(now, Interval(), utcOffset(now)))
      && (!s0.forceRotation && now < s0.nextRotationTime ==> nextRotationTime == s0.nextRotationTime)
      && (!s0.forceRotation && now >= s0.nextRotationTime && now + utcOffset(now) >= 0 ==>
            WindowStart(nextRotationTime, rotationAge) <= now < nextRotationTime)
      && fileOpen == ((s0.fileOpen && !rotated) || openSucceeds)
      && (s0.fileOpen && !rotated ==> filenameInUse == s0.filenameInUse)
      && (!fileOpen ==>
            && !ok && appends == s0.appends && filenameInUse == s0.filenameInUse
            && formatter.logLineNumber == s0.logLineNumber && formatter.logMyPid == s0.logMyPid
            && formatter.formattedStartTime == s0.formattedStartTime)
      && (fileOpen ==>
            && line == Line(AuditFields(e, exclude, b, PasteMillis(clock.text, clock.usec),
                                        formatter.formattedStartTime, formatter.logMyPid, formatter.logLineNumber))
            && appends == s0.appends + [Append(filename, line[..Written(line, capacity)])]
            && (ok <==> |line| <= capacity)
            && formatter.logMyPid == b.pid
            && (s0.logMyPid != b.pid ==>
                  formatter.logLineNumber == 1 && formatter.formattedStartTime == b.startTimeText)
            && (s0.logMyPid == b.pid ==>
                  && formatter.logLineNumber == s0.logLineNumber + 1
                  && formatter.formattedStartTime == s0.formattedStartTime))
    }

    /**
     * The second step of pgauditlogtofile_record_audit: open the derived
     * filename when no file is open, then write the line; a failed open
     * returns false with nothing written and the formatter untouched.
     */
    method OpenAndWrite(e: ErrorData, exclude: nat, b: Backend, clock: Clock, openSucceeds: bool, capacity: nat)
        returns (ok: bool, ghost line: string)
      requires Valid() && exclude <= |e.message| && ClockWellFormed(clock)
      modifies this, formatter, formatter.formattedLogTime
      ensures Valid()
      ensures fileOpen == (old(fileOpen) || openSucceeds)
      ensures old(fileOpen) ==> filenameInUse == old(filenameInUse)
      ensures !fileOpen ==>
        && !ok && appends == old(appends) && filenameInUse == old(filenameInUse)
        && formatter.logLineNumber == old(formatter.logLineNumber) && formatter.logMyPid == old(formatter.logMyPid)
        && formatter.formattedStartTime == old(formatter.formattedStartTime)
      ensures fileOpen ==>
        && line == Line(AuditFields(e, exclude, b, PasteMillis(clock.text, clock.usec),
                                    formatter.formattedStartTime, formatter.logMyPid, formatter.logLineNumber))
        && appends == old(appends) + [Append(filename, line[..Written(line, capacity)])]
        && (ok <==> |line| <= capacity)
        && formatter.logMyPid == b.pid
        && (old(formatter.logMyPid) != b.pid ==>
              formatter.logLineNumber == 1 && formatter.formattedStartTime == b.startTimeText)
        && (old(formatter.logMyPid) == b.pid ==>
              && formatter.logLineNumber == old(formatter.logLineNumber) + 1
              && formatter.formattedStartTime == old(formatter.formattedStartTime))
      ensures shm == old(shm) && nextRotationTime == old(nextRotationTime) && filename == old(filename)
      ensures directory == old(directory) && pattern == old(pattern) && rotationAge == old(rotationAge)
      ensures logConnections == old(logConnections) && logDisconnections == old(logDisconnections)
    {
      line := [];
      if !fileOpen {
        var success := OpenFile(openSucceeds);
        if !success {
          return false, line;
        }
      }
      ok, line := WriteAudit(e, exclude, b, clock, capacity);
    }

    /**
     * pgauditlogtofile_record_audit: rotate if needed, open lazily, then
     * write. `rotated` reports the rotation decision.
     */
    method RecordAudit(e: ErrorData, exclude: nat, b: Backend, clock: Clock, now: int,
                       openSucceeds: bool, capacity: nat)
        returns (ok: bool, ghost rotated: bool, ghost line: string)
      requires Valid() && shm == Attached && exclude <= |e.message| && ClockWellFormed(clock)
      modifies this, shared, formatter, formatter.formattedLogTime
      ensures Valid()
      ensures RecordedAudit(old(Snap()), e, exclude, b, clock, now, openSucceeds, capacity, ok, rotated, line)
      ensures shm == old(shm)
      ensures directory == old(directory) && pattern == old(pattern) && rotationAge == old(rotationAge)
      ensures logConnections == old(logConnections) && logDisconnections == old(logDisconnections)
    {
      rotated := RotateIfNeeded(now);
      ok, line := OpenAndWrite(e, exclude, b, clock, openSucceeds, capacity);
    }

    /**
     * pgauditlogtofile_is_enabled: the struct is attached and both settings are
     * non-empty. An enabled process is one whose rotation requests reach the
     * flag, even through the request as written.
     */
    predicate IsEnabled(): (enabled: bool)
      reads this
      ensures enabled ==> RequestRotationAsWritten(shm) == FlagSet && RequestRotationGuarded(shm) == FlagSet
    {
      shm == Attached && directory != [] && pattern != []
    }

    /**
     * pgauditlogtofile_emit_log: an enabled hook takes ownership of events
     * whose message starts with the audit prefix or an enabled connection
     * prefix, and hands them back to the server log when recording fails.
     * Only the flag `outputToServer` of the event changes; the line is
     * formatted from the event as it came in, since formatting does not read
     * that flag.
     */
    method EmitLog(e: ErrorData, b: Backend, clock: Clock, now: int, openSucceeds: bool, capacity: nat)
        returns (e': ErrorData, ghost recorded: bool, ghost rotated: bool, ghost line: string)
      requires Valid() && ClockWellFormed(clock)
      modifies this, shared, formatter, formatter.formattedLogTime
      ensures Valid()
      ensures e' == e.(outputToServer := e'.outputToServer)
      ensures !old(IsEnabled()) || ExcludeChars(e.message, old(logConnections), old(logDisconnections)).None? ==>
        e' == e && !recorded && !rotated && unchanged(this, shared, formatter, formatter.formattedLogTime)
      ensures old(IsEnabled()) && ExcludeChars(e.message, old(logConnections), old(logDisconnections)).Some? ==>
        var exclude := ExcludeChars(e.message, old(logConnections), old(logDisconnections)).value;
        && RecordedAudit(old(Snap()), e, exclude, b, clock, now, openSucceeds, capacity, recorded, rotated, line)
        && e'.outputToServer == !recorded
      ensures shm == old(shm)
      ensures directory == old(directory) && pattern == old(pattern) && rotationAge == old(rotationAge)
      ensures logConnections == old(logConnections) && logDisconnections == old(logDisconnections)
    {
      e', recorded, rotated, line := e, false, false, [];
      if !IsEnabled() {
        return;
      }
      var exclude := ChooseExcludeChars(e.message, logConnections, logDisconnections);
      if exclude < 0 {
        return;
      }
      // the decision reads nothing of the process's state
      assert unchanged(this, shared, formatter);
      assert Snap() == old(Snap());
      e' := e.(outputToServer := false);
      var ok;
      ok, rotated, line := RecordAudit(e, exclude, b, clock, now, openSucceeds, capacity);
      recorded := ok;
      if !ok {
        e' := e'.(outputToServer := true);
      }
    }
  }

  /**
   * Two workers attached to the same struct: a forced rotation is consumed by
   * the first worker that checks, while a second worker whose file is open
   * and whose schedule is not yet due keeps its file, because the derived
   * filename each compares with is its own.
   */
  method ForcedRotationReachesOneWorker(first: AuditLogToFile, second: AuditLogToFile, now: int)
      returns (firstRotates: bool, secondRotates: bool)
    requires first != second && first.shared == second.shared
    requires first.Valid() && second.Valid() && first.shm == Attached && second.shm == Attached
    requires first.shared.forceRotation
    requires second.fileOpen && now < second.nextRotationTime
    modifies first, second, first.shared
    ensures firstRotates && !secondRotates && !first.shared.forceRotation
    ensures second.fileOpen && second.filenameInUse == old(second.filenameInUse)
  {
    firstRotates := first.NeedsRotateFile(now);
    secondRotates := second.NeedsRotateFile(now);
  }

  /**
   * The same two workers when the second reloads the configuration too: its
   * own assign hook requests the rotation again, and this time it is the one
   * that consumes the force.
   */
  method ReloadReachesSecondWorker(first: AuditLogToFile, second: AuditLogToFile, now: int, directory: string)
      returns (firstRotates: bool, secondRotates: bool)
    requires first != second && first.shared == second.shared
    requires first.Valid() && second.Valid() && first.shm == Attached && second.shm == Attached
    requires first.shared.forceRotation
    requires second.fileOpen && now < second.nextRotationTime
    modifies first, second, first.shared
    ensures firstRotates && secondRotates && !first.shared.forceRotation
    ensures second.directory == directory && second.nextRotationTime == old(second.nextRotationTime)
  {
    firstRotates := first.NeedsRotateFile(now);
    second.SetDirectory(directory);
    secondRotates := second.NeedsRotateFile(now);
  }

  /**
   * Both workers reload the directory setting before either checks: the
   * second request finds the flag still set and adds nothing, so the first
   * worker to check consumes the only force and the second keeps writing to
   * the file it has open, under its old filename.
   */
  method InterleavedReloadsReachOneWorker(first: AuditLogToFile, second: AuditLogToFile, now: int, directory: string)
      returns (firstRotates: bool, secondRotates: bool)
    requires first != second && first.shared == second.shared
    requires first.Valid() && second.Valid() && first.shm == Attached && second.shm == Attached
    requires second.fileOpen && now < second.nextRotationTime
    modifies first, second, first.shared
    ensures firstRotates && !secondRotates && !first.shared.forceRotation
    ensures second.directory == directory && second.fileOpen
    ensures second.filename == old(second.filename) && second.filenameInUse == old(second.filenameInUse)
  {
    first.SetDirectory(directory);
    second.SetDirectory(directory);
    firstRotates := first.NeedsRotateFile(now);
    secondRotates := second.NeedsRotateFile(now);
  }

  /**
   * A force consumed once the schedule is already due keeps the schedule, so
   * the record goes to the file of the window that ended at it rather than to
   * the one holding `now`; the next record finds the schedule due and
   * rotates again.
   */
  method ForcedAfterBoundaryWritesPastWindow(w: AuditLogToFile, e: ErrorData, exclude: nat, b: Backend,
                                             clock: Clock, now: int, openSucceeds: bool, capacity: nat)
      returns (ok: bool)
    requires w.Valid() && w.shm == Attached && w.shared.forceRotation && now >= w.nextRotationTime
    requires exclude <= |e.message| && ClockWellFormed(clock)
    modifies w, w.shared, w.formatter, w.formatter.formattedLogTime
    ensures w.Valid() && w.nextRotationTime == old(w.nextRotationTime) <= now
    ensures w.filename == AuditFilename(w.directory, w.pattern, WindowStart(w.nextRotationTime, w.rotationAge), w.render)
    ensures WindowStart(w.nextRotationTime, w.rotationAge) + w.Interval() <= now
    ensures w.fileOpen ==> |w.appends| == |old(w.appends)| + 1 && w.appends[|w.appends| - 1].file == w.filename
  {
    ghost var rotated, line;
    ok, rotated, line := w.RecordAudit(e, exclude, b, clock, now, openSucceeds, capacity);
  }
}
