/** The logged backend of internal/storage/file_storage.go: the volatile map, plus an append-only
    log of JSON records (one per line) replayed at start-up, plus the package-level `lastUUID`
    sequence counter. Opening the file and encoding a record are I/O: their outcomes are
    parameters. */
module FileBackend {
  import opened Wrappers
  import opened Models
  import opened Decimal
  import opened Sql

  const NotImplemented: Error := Error("not implemented")

  /** One line of the log as the JSON decoder sees it: a record, or a line it fails on. */
  datatype LogLine = Line(record: AddNewURLRecord) | Malformed(reason: string)

  predicate WellFormed(lines: seq<LogLine>)
  {
    forall i | 0 <= i < |lines| :: lines[i].Line?
  }

  function Records(lines: seq<LogLine>): (rs: seq<AddNewURLRecord>)
    requires WellFormed(lines)
    ensures |rs| == |lines| && forall i | 0 <= i < |lines| :: rs[i] == lines[i].record
  {
    seq(|lines|, i requires 0 <= i < |lines| => lines[i].record)
  }

  function Lines(records: seq<AddNewURLRecord>): (lines: seq<LogLine>)
    ensures |lines| == |records| && WellFormed(lines)
    ensures forall i | 0 <= i < |records| :: lines[i] == Line(records[i])
  {
    seq(|records|, i requires 0 <= i < |records| => Line(records[i]))
  }

  /** The in-memory value a record stands for: `[OriginalURL, UserID]`. */
  function Entry(r: AddNewURLRecord): Attributes
  {
    Attributes(r.originalURL, r.userID)
  }

  /** Outcome of the decode loop of `LoadURLsFromFile`. */
  datatype Replayed = Replayed(urls: map<string, Attributes>, lastUUID: int, err: Error)

  /** The decode loop: each record sets its code's entry and sets the counter to its parsed ID
      (0 when the ID does not parse); the end of the log (EOF) stops with no error; a line that does
      not decode stops with its error, keeping what was replayed before it. */
  function Replay(urls: map<string, Attributes>, lastUUID: int, lines: seq<LogLine>): Replayed
    decreases |lines|
  {
    if lines == [] then Replayed(urls, lastUUID, NoError)
    else
      match lines[0]
      case Malformed(reason) => Replayed(urls, lastUUID, Error(reason))
      case Line(r) => Replay(urls[r.shortURL := Entry(r)], AtoiOrZero(r.id), lines[1..])
  }

  /** Replay succeeds exactly on logs with no undecodable line. */
  lemma {:induction false} ReplayOkIffWellFormed(urls: map<string, Attributes>, lastUUID: int, lines: seq<LogLine>)
    ensures Replay(urls, lastUUID, lines).err == NoError <==> WellFormed(lines)
    decreases |lines|
  {
    if lines != [] {
      if lines[0].Line? {
        var r := lines[0].record;
        ReplayOkIffWellFormed(urls[r.shortURL := Entry(r)], AtoiOrZero(r.id), lines[1..]);
        assert WellFormed(lines) <==> WellFormed(lines[1..]) by {
          if WellFormed(lines[1..]) {
            forall i | 0 <= i < |lines| ensures lines[i].Line? {
              if i > 0 { assert lines[i] == lines[1..][i - 1]; }
            }
          }
        }
      }
    }
  }

  /** Replaying one more record is replaying the log, then applying that record. */
  lemma {:induction false} ReplaySnoc(urls: map<string, Attributes>, lastUUID: int, lines: seq<LogLine>, r: AddNewURLRecord)
    requires WellFormed(lines)
    ensures var before := Replay(urls, lastUUID, lines);
      Replay(urls, lastUUID, lines + [Line(r)]) == Replayed(before.urls[r.shortURL := Entry(r)], AtoiOrZero(r.id), NoError)
    decreases |lines|
  {
    if lines == [] {
      assert lines + [Line(r)] == [Line(r)];
    } else {
      var r0 := lines[0].record;
      assert (lines + [Line(r)])[1..] == lines[1..] + [Line(r)];
      ReplaySnoc(urls[r0.shortURL := Entry(r0)], AtoiOrZero(r0.id), lines[1..], r);
    }
  }

  /** After replaying a decodable log, each code holds `[OriginalURL, UserID]` of the last record
      carrying it; codes no record carries keep their prior entry or stay absent. */
  lemma {:induction false} ReplayAt(urls: map<string, Attributes>, lastUUID: int, lines: seq<LogLine>, code: string)
    requires WellFormed(lines)
    ensures var m, j := Replay(urls, lastUUID, lines).urls, LastIndexOfCode(Records(lines), code);
      && (code in m <==> code in urls || j >= 0)
      && (j >= 0 ==> m[code] == Entry(lines[j].record))
      && (j < 0 && code in urls ==> m[code] == urls[code])
    decreases |lines|
  {
    if lines != [] {
      var init, r := lines[..|lines| - 1], lines[|lines| - 1].record;
      assert lines == init + [Line(r)];
      assert Records(init) == Records(lines)[..|lines| - 1];
      ReplaySnoc(urls, lastUUID, init, r);
      ReplayAt(urls, lastUUID, init, code);
    }
  }

  /** After replaying a decodable log, the counter is the parsed ID of its last record. */
  lemma ReplayCounter(urls: map<string, Attributes>, lastUUID: int, lines: seq<LogLine>)
    requires WellFormed(lines) && lines != []
    ensures Replay(urls, lastUUID, lines).lastUUID == AtoiOrZero(lines[|lines| - 1].record.id)
  {
    var init := lines[..|lines| - 1];
    assert lines == init + [lines[|lines| - 1]];
    ReplaySnoc(urls, lastUUID, init, lines[|lines| - 1].record);
  }

  /** A line that does not decode aborts the replay with its error; everything replayed before it
      stays. */
  lemma {:induction false} ReplayStopsAtMalformed(urls: map<string, Attributes>, lastUUID: int, good: seq<LogLine>, reason: string, rest: seq<LogLine>)
    requires WellFormed(good)
    ensures var before := Replay(urls, lastUUID, good);
      Replay(urls, lastUUID, good + [Malformed(reason)] + rest) == Replayed(before.urls, before.lastUUID, Error(reason))
    decreases |good|
  {
    if good == [] {
      assert good + [Malformed(reason)] + rest == [Malformed(reason)] + rest;
    } else {
      var r0 := good[0].record;
      assert (good + [Malformed(reason)] + rest)[1..] == good[1..] + [Malformed(reason)] + rest;
      ReplayStopsAtMalformed(urls[r0.shortURL := Entry(r0)], AtoiOrZero(r0.id), good[1..], reason, rest);
    }
  }

  /** Counter continuation: a log whose last record was stamped `Itoa(k)` restarts the counter at
      `k`, so the next save after a restart is numbered `k + 1`. */
  lemma CounterContinues(lines: seq<LogLine>, r: AddNewURLRecord, k: int)
    requires WellFormed(lines) && r.id == Itoa(k)
    ensures Replay(map[], 0, lines + [Line(r)]).lastUUID == k
  {
    ReplaySnoc(map[], 0, lines, r);
    AtoiItoa(k);
  }

  /** Index of the first failing write, or `|faults|` when every write succeeds. */
  function FirstFault(faults: seq<Error>): (k: nat)
    ensures k <= |faults|
    ensures forall i | 0 <= i < k :: faults[i] == NoError
    ensures k < |faults| ==> faults[k] != NoError
    decreases |faults|
  {
    if faults == [] then 0
    else if faults[0] != NoError then 0
    else 1 + FirstFault(faults[1..])
  }

  class FileStorage {
    const filePath: string
    const storageName: string := "file storage"
    var urls: map<string, Attributes>
    /** The lines of the log file; empty while the file does not exist. */
    var log: seq<LogLine>
    var logExists: bool
    /** The package-level `lastUUID`. */
    var lastUUID: int

    ghost predicate Valid()
      reads this
    {
      !logExists ==> log == []
    }

    /** The map is what replaying the log from scratch gives. */
    ghost predicate MirrorsLog()
      reads this
    {
      WellFormed(log) && urls == Replay(map[], 0, log).urls
    }

    /** The counter is what replaying the log from scratch gives. */
    ghost predicate CounterMirrorsLog()
      reads this
    {
      WellFormed(log) && lastUUID == Replay(map[], 0, log).lastUUID
    }

    /** The instance before `LoadURLsFromFile` runs: an empty map, the counter at Go's zero value,
        and the log file as found on disk. */
    constructor (filePath: string, logExists: bool, log: seq<LogLine>)
      requires !logExists ==> log == []
      ensures Valid()
      ensures this.filePath == filePath && this.logExists == logExists && this.log == log
      ensures urls == map[] && lastUUID == 0
    {
      this.filePath := filePath;
      this.logExists := logExists;
      this.log := log;
      urls := map[];
      lastUUID := 0;
    }

    /** `LoadURLsFromFile`: a missing file is not an error; any other open failure is returned; an
        opened file is replayed line by line until EOF or the first decode error. */
    method LoadURLsFromFile(openFault: Error) returns (err: Error)
      requires Valid()
      modifies this`urls, this`lastUUID
      ensures !logExists ==> err == NoError && urls == old(urls) && lastUUID == old(lastUUID)
      ensures logExists && openFault != NoError ==>
        err == openFault && urls == old(urls) && lastUUID == old(lastUUID)
      ensures logExists && openFault == NoError ==>
        Replayed(urls, lastUUID, err) == Replay(old(urls), old(lastUUID), log)
    {
      if !logExists {
        return NoError;
      }
      if openFault != NoError {
        return openFault;
      }
      var i := 0;
      while i < |log|
        invariant 0 <= i <= |log|
        invariant Replay(old(urls), old(lastUUID), log) == Replay(urls, lastUUID, log[i..])
      {
        assert log[i..][1..] == log[i + 1..];
        match log[i]
        case Malformed(reason) =>
          return Error(reason);
        case Line(record) =>
          urls := urls[record.shortURL := Attributes(record.originalURL, record.userID)];
          lastUUID := AtoiOrZero(record.id);
        i := i + 1;
      }
      err := NoError;
    }

    /** `saveToFile`: append the record to the log first; only once that succeeded, put
        `[OriginalURL, UserID]` under its code. */
    method SaveToFile(newURL: AddNewURLRecord, fault: Error) returns (err: Error)
      requires Valid()
      modifies this`urls, this`log, this`logExists
      ensures Valid() && err == fault
      ensures fault != NoError ==> urls == old(urls) && log == old(log) && logExists == old(logExists)
      ensures fault == NoError ==> logExists && log == old(log) + [Line(newURL)]
      ensures fault == NoError ==> urls == old(urls)[newURL.shortURL := Entry(newURL)]
      ensures old(MirrorsLog()) ==> MirrorsLog()
    {
      if fault != NoError {
        return fault;
      }
      if MirrorsLog() {
        ReplaySnoc(map[], 0, log, newURL);
      }
      log := log + [Line(newURL)];
      logExists := true;
      urls := urls[newURL.shortURL := Attributes(newURL.originalURL, newURL.userID)];
      err := NoError;
    }

    /** `SaveURL`: bump the counter first (also when the write then fails), stamp the record with
        the counter's decimal form, write it; no conflict is ever reported. */
    method SaveURL(shortURL: string, originalURL: string, userID: string, fault: Error)
      returns (existing: string, err: Error)
      requires Valid()
      modifies this`urls, this`log, this`logExists, this`lastUUID
      ensures Valid() && lastUUID == old(lastUUID) + 1
      ensures existing == "" && err == fault
      ensures fault == NoError ==>
        logExists && log == old(log) + [Line(AddNewURLRecord(Itoa(lastUUID), shortURL, originalURL, userID, false))]
      ensures fault == NoError ==> urls == old(urls)[shortURL := Attributes(originalURL, userID)]
      ensures fault != NoError ==> urls == old(urls) && log == old(log) && logExists == old(logExists)
      ensures old(MirrorsLog()) ==> MirrorsLog()
      ensures old(CounterMirrorsLog()) && fault == NoError ==> CounterMirrorsLog()
    {
      ghost var counterMirrored := CounterMirrorsLog();
      lastUUID := lastUUID + 1;
      var record := AddNewURLRecord(Itoa(lastUUID), shortURL, originalURL, userID, false);
      if fault == NoError && counterMirrored {
        CounterContinues(log, record, lastUUID);
      }
      err := SaveToFile(record, fault);
      existing := "";
    }

    function GetOriginalURL(shortURL: string): (r: OriginalURLSelectionResult)
      reads this`urls
      ensures r.error == NoError <==> shortURL in urls
      ensures shortURL in urls ==> r == OriginalURLSelectionResult(urls[shortURL].url, false, NoError, "")
      ensures shortURL !in urls ==> r == OriginalURLSelectionResult("", false, Error("URL not found"), "")
    {
      if shortURL !in urls then OriginalURLSelectionResult("", false, Error("URL not found"), "")
      else OriginalURLSelectionResult(urls[shortURL].url, false, NoError, "")
    }

    method Ping() returns (err: Error)
      ensures err == NoError
    {
      err := NoError;
    }

    function GetStorageName(): (r: (string, Error))
      ensures r == ("file storage", NoError)
    {
      (storageName, NoError)
    }

    /** `SaveBatch`: `saveToFile` on each record in input order, stopping at the first failed
        write; earlier records stay written and mapped, and the counter is not touched. */
    method SaveBatch(records: seq<AddNewURLRecord>, faults: seq<Error>) returns (err: Error)
      requires Valid() && |faults| == |records|
      modifies this`urls, this`log, this`logExists
      ensures Valid()
      ensures var k := FirstFault(faults);
        && err == (if k < |faults| then faults[k] else NoError)
        && log == old(log) + Lines(records[..k])
        && logExists == (old(logExists) || k > 0)
        && urls == Replay(old(urls), lastUUID, Lines(records[..k])).urls
      ensures old(MirrorsLog()) ==> MirrorsLog()
    {
      var i := 0;
      while i < |records|
        invariant 0 <= i <= |records| && Valid()
        invariant forall j | 0 <= j < i :: faults[j] == NoError
        invariant log == old(log) + Lines(records[..i])
        invariant logExists == (old(logExists) || i > 0)
        invariant urls == Replay(old(urls), lastUUID, Lines(records[..i])).urls
        invariant old(MirrorsLog()) ==> MirrorsLog()
      {
        err := SaveToFile(records[i], faults[i]);
        if err != NoError {
          assert FirstFault(faults) == i by { FirstFaultAt(faults, i); }
          return;
        }
        assert Lines(records[..i + 1]) == Lines(records[..i]) + [Line(records[i])];
        ReplaySnoc(old(urls), lastUUID, Lines(records[..i]), records[i]);
        i := i + 1;
      }
      assert FirstFault(faults) == |faults| by { FirstFaultAt(faults, |faults|); }
      assert records[..i] == records;
      err := NoError;
    }

    method SaveBatchTransaction(tx: Tx?, shortURL: string, originalURL: string, userID: string) returns (err: Error)
      ensures err == NotImplemented
    {
      err := NotImplemented;
    }

    method GetAllUserURLs(userID: string) returns (pairs: seq<BasePairsOfURLsResponse>, err: Error)
      ensures pairs == [] && err == NotImplemented
    {
      pairs, err := [], NotImplemented;
    }

    method MarkURLsAsDeleted(userID: string, urlIDs: seq<string>) returns (err: Error)
      ensures err == NotImplemented
    {
      err := NotImplemented;
    }
  }

  /** The first fault is at `i` when all writes before `i` succeed and the one at `i` fails (or
      `i` is the end). */
  lemma {:induction false} FirstFaultAt(faults: seq<Error>, i: nat)
    requires i <= |faults| && forall j | 0 <= j < i :: faults[j] == NoError
    requires i < |faults| ==> faults[i] != NoError
    ensures FirstFault(faults) == i
    decreases i
  {
    if i > 0 {
      FirstFaultAt(faults[1..], i - 1);
    }
  }

  /** `NewFileStorage`: build the instance, then replay the log into it. */
  method NewFileStorage(filePath: string, logExists: bool, log: seq<LogLine>, openFault: Error)
    returns (fs: FileStorage, err: Error)
    requires !logExists ==> log == []
    ensures fresh(fs) && fs.Valid() && fs.filePath == filePath && fs.logExists == logExists && fs.log == log
    ensures logExists && openFault == NoError ==>
      Replayed(fs.urls, fs.lastUUID, err) == Replay(map[], 0, log)
    ensures !logExists ==> err == NoError
    ensures err == NoError ==> fs.MirrorsLog() && fs.CounterMirrorsLog()
  {
    fs := new FileStorage(filePath, logExists, log);
    err := fs.LoadURLsFromFile(openFault);
    if err == NoError && logExists && openFault == NoError {
      ReplayOkIffWellFormed(map[], 0, log);
    }
  }

  /** Replay fidelity: a fresh instance built over the log of an instance whose map mirrors it
      resolves every code exactly as that instance does, and when the counter mirrors the log too,
      it continues numbering from the same value. */
  method Restart(fs: FileStorage) returns (restarted: FileStorage, err: Error)
    requires fs.Valid() && fs.MirrorsLog()
    ensures err == NoError
    ensures forall code :: restarted.GetOriginalURL(code) == fs.GetOriginalURL(code)
    ensures fs.CounterMirrorsLog() ==> restarted.lastUUID == fs.lastUUID
  {
    ReplayOkIffWellFormed(map[], 0, fs.log);
    restarted, err := NewFileStorage(fs.filePath, fs.logExists, fs.log, NoError);
  }
}
