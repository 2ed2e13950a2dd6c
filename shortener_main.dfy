/** The early self-contained server of cmd/shortener/main.go: a process-wide map from `"/"+code`
    to URL, a `lastUUID` counter, and a log file of JSON records (one per line) appended on every
    shortening and replayed at start-up. Opening the file and encoding a record are I/O: their
    outcomes are parameters. */
module ShortenerMain {
  import opened Wrappers
  import opened Decimal
  import opened Base64Url
  import opened ShortCode
  import opened Handlers

  /** The record this server writes: `{"uuid", "short_url", "original_url"}`. */
  datatype UUIDRecord = UUIDRecord(uuid: string, shortURL: string, originalURL: string)

  /** One line of the log as the JSON decoder sees it. */
  datatype LogLine = Line(record: UUIDRecord) | Malformed(reason: string)

  predicate WellFormed(lines: seq<LogLine>)
  {
    forall i | 0 <= i < |lines| :: lines[i].Line?
  }

  /** The map key a code is stored under. */
  function Key(code: string): (k: string)
    ensures |k| == |code| + 1 && k[0] == '/' && k[1..] == code
  {
    "/" + code
  }

  /** Every key carries the leading `/` of a request path. */
  predicate Rooted(pairs: map<string, string>)
  {
    forall k | k in pairs :: |k| > 0 && k[0] == '/'
  }

  datatype Loaded = Loaded(pairs: map<string, string>, lastUUID: int, err: Error)

  /** The decode loop of `loadURLsFromFile`: each record maps `"/"+ShortURL` to its URL and sets
      the counter to its parsed `UUID` (0 when it does not parse); EOF stops with no error; a line
      that does not decode stops with its error, keeping what was loaded before it. */
  function Load(pairs: map<string, string>, lastUUID: int, lines: seq<LogLine>): Loaded
    decreases |lines|
  {
    if lines == [] then Loaded(pairs, lastUUID, NoError)
    else
      match lines[0]
      case Malformed(reason) => Loaded(pairs, lastUUID, Error(reason))
      case Line(r) => Load(pairs[Key(r.shortURL) := r.originalURL], AtoiOrZero(r.uuid), lines[1..])
  }

  /** Loading keeps keys rooted. */
  lemma {:induction false} LoadKeepsRooted(pairs: map<string, string>, lastUUID: int, lines: seq<LogLine>)
    requires Rooted(pairs)
    ensures Rooted(Load(pairs, lastUUID, lines).pairs)
    decreases |lines|
  {
    if lines != [] && lines[0].Line? {
      var r := lines[0].record;
      LoadKeepsRooted(pairs[Key(r.shortURL) := r.originalURL], AtoiOrZero(r.uuid), lines[1..]);
    }
  }

  /** Loading succeeds exactly on logs with no undecodable line. */
  lemma {:induction false} LoadOkIffWellFormed(pairs: map<string, string>, lastUUID: int, lines: seq<LogLine>)
    ensures Load(pairs, lastUUID, lines).err == NoError <==> WellFormed(lines)
    decreases |lines|
  {
    if lines != [] {
      assert forall i | 1 <= i < |lines| :: lines[i] == lines[1..][i - 1];
      if lines[0].Line? {
        var r := lines[0].record;
        LoadOkIffWellFormed(pairs[Key(r.shortURL) := r.originalURL], AtoiOrZero(r.uuid), lines[1..]);
      }
    }
  }

  /** Loading a log with one more record at its end: that record's key and counter win. */
  lemma {:induction false} LoadSnoc(pairs: map<string, string>, lastUUID: int, lines: seq<LogLine>, r: UUIDRecord)
    requires WellFormed(lines)
    ensures var before := Load(pairs, lastUUID, lines);
      Load(pairs, lastUUID, lines + [Line(r)]) ==
        Loaded(before.pairs[Key(r.shortURL) := r.originalURL], AtoiOrZero(r.uuid), NoError)
    decreases |lines|
  {
    if lines == [] {
      assert [] + [Line(r)] == [Line(r)];
    } else {
      var first := lines[0].record;
      assert (lines + [Line(r)])[1..] == lines[1..] + [Line(r)];
      LoadSnoc(pairs[Key(first.shortURL) := first.originalURL], AtoiOrZero(first.uuid), lines[1..], r);
    }
  }

  class Shortener {
    var pairsOfURLs: map<string, string>
    var lastUUID: int
    /** The lines of the log file; empty while the file does not exist. */
    var log: seq<LogLine>
    var logExists: bool

    ghost predicate Valid()
      reads this
    {
      (!logExists ==> log == []) && Rooted(pairsOfURLs)
    }

    /** Memory and counter are what loading the log from scratch gives. */
    ghost predicate MirrorsLog()
      reads this
    {
      && WellFormed(log)
      && pairsOfURLs == Load(map[], 0, log).pairs
      && lastUUID == Load(map[], 0, log).lastUUID
    }

    /** The process at start: an empty map, the counter at Go's zero value, the file as found. */
    constructor (logExists: bool, log: seq<LogLine>)
      requires !logExists ==> log == []
      ensures Valid() && this.logExists == logExists && this.log == log
      ensures pairsOfURLs == map[] && lastUUID == 0
    {
      this.logExists := logExists;
      this.log := log;
      pairsOfURLs := map[];
      lastUUID := 0;
    }

    /** `loadURLsFromFile`: a missing file is not an error; any other open failure is returned; an
        opened file is decoded record by record until EOF or the first decode error. */
    method LoadURLsFromFile(openFault: Error) returns (err: Error)
      requires Valid()
      modifies this`pairsOfURLs, this`lastUUID
      ensures Valid()
      ensures !logExists ==> err == NoError && pairsOfURLs == old(pairsOfURLs) && lastUUID == old(lastUUID)
      ensures logExists && openFault != NoError ==>
        err == openFault && pairsOfURLs == old(pairsOfURLs) && lastUUID == old(lastUUID)
      ensures logExists && openFault == NoError ==>
        Loaded(pairsOfURLs, lastUUID, err) == Load(old(pairsOfURLs), old(lastUUID), log)
    {
      if !logExists {
        return NoError;
      }
      if openFault != NoError {
        return openFault;
      }
      LoadKeepsRooted(pairsOfURLs, lastUUID, log);
      var i := 0;
      while i < |log|
        invariant 0 <= i <= |log|
        invariant Load(old(pairsOfURLs), old(lastUUID), log) == Load(pairsOfURLs, lastUUID, log[i..])
      {
        assert log[i..][1..] == log[i + 1..];
        match log[i]
        case Malformed(reason) =>
          return Error(reason);
        case Line(record) =>
          pairsOfURLs := pairsOfURLs[Key(record.shortURL) := record.originalURL];
          lastUUID := AtoiOrZero(record.uuid);
        i := i + 1;
      }
      err := NoError;
    }

    /** `addURLToFile`: append one record, creating the file if needed; a failed open or encode
        leaves the file as it was. */
    method AddURLToFile(newURL: UUIDRecord, fault: Error) returns (err: Error)
      requires Valid()
      modifies this`log, this`logExists
      ensures Valid() && err == fault
      ensures fault != NoError ==> log == old(log) && logExists == old(logExists)
      ensures fault == NoError ==> logExists && log == old(log) + [Line(newURL)]
    {
      if fault != NoError {
        return fault;
      }
      log := log + [Line(newURL)];
      logExists := true;
      err := NoError;
    }

    /** The shortening shared by both POST handlers once a non-empty URL is in hand: store it under
        `"/"+code`, bump the counter, append the record; a failed append is only logged, and the
        answer is 201 either way. A failed random read answers 400 and changes nothing. */
    method Shorten(url: string, rnd: RandomRead, responseAddress: string, fault: Error) returns (resp: Response)
      requires Valid() && Fills(rnd, CodeLength)
      modifies this`pairsOfURLs, this`lastUUID, this`log, this`logExists
      ensures Valid()
      ensures rnd.ReadFailed? ==>
        && resp == Status(StatusBadRequest)
        && pairsOfURLs == old(pairsOfURLs) && lastUUID == old(lastUUID) && log == old(log)
        && logExists == old(logExists)
      ensures rnd.ReadOk? ==>
        var code := GenerateShortURL(CodeLength, rnd).value;
        && resp == Response(StatusCreated, ShortAddress(responseAddress, code), "")
        && pairsOfURLs == old(pairsOfURLs)[Key(code) := url]
        && lastUUID == old(lastUUID) + 1
        && log == old(log) + (if fault == NoError then [Line(UUIDRecord(Itoa(lastUUID), code, url))] else [])
        && logExists == (old(logExists) || fault == NoError)
      ensures old(MirrorsLog()) && fault == NoError ==> MirrorsLog()
    {
      var generated := GenerateShortURL(CodeLength, rnd);
      if generated.Failure? {
        return Status(StatusBadRequest);
      }
      var code := generated.value;
      ghost var mirrored := MirrorsLog();
      pairsOfURLs := pairsOfURLs[Key(code) := url];
      lastUUID := lastUUID + 1;
      var record := UUIDRecord(Itoa(lastUUID), code, url);
      if mirrored && fault == NoError {
        LoadSnoc(map[], 0, log, record);
        AtoiItoa(lastUUID);
        assert WellFormed(log + [Line(record)]);
      }
      var _ := AddURLToFile(record, fault);
      resp := Response(StatusCreated, ShortAddress(responseAddress, code), "");
    }

    /** `postURLHandler`: the URL is the raw body (`None` when reading it fails). */
    method PostURLHandler(httpMethod: string, body: Option<string>, rnd: RandomRead, responseAddress: string, fault: Error)
      returns (resp: Response)
      requires Valid() && Fills(rnd, CodeLength)
      modifies this`pairsOfURLs, this`lastUUID, this`log, this`logExists
      ensures Valid()
      ensures httpMethod != MethodPost || body == None || body == Some("") ==>
        && resp == Status(StatusBadRequest)
        && pairsOfURLs == old(pairsOfURLs) && lastUUID == old(lastUUID) && log == old(log)
        && logExists == old(logExists)
      ensures httpMethod == MethodPost && body.Some? && body.value != "" && rnd.ReadFailed? ==>
        && resp == Status(StatusBadRequest)
        && pairsOfURLs == old(pairsOfURLs) && lastUUID == old(lastUUID) && log == old(log)
        && logExists == old(logExists)
      ensures httpMethod == MethodPost && body.Some? && body.value != "" && rnd.ReadOk? ==>
        var code := GenerateShortURL(CodeLength, rnd).value;
        && resp == Response(StatusCreated, ShortAddress(responseAddress, code), "")
        && pairsOfURLs == old(pairsOfURLs)[Key(code) := body.value]
        && lastUUID == old(lastUUID) + 1
        && log == old(log) + (if fault == NoError then [Line(UUIDRecord(Itoa(lastUUID), code, body.value))] else [])
        && logExists == (old(logExists) || fault == NoError)
      ensures old(MirrorsLog()) && fault == NoError ==> MirrorsLog()
    {
      if httpMethod != MethodPost || body == None || |body.value| == 0 {
        return Status(StatusBadRequest);
      }
      resp := Shorten(body.value, rnd, responseAddress, fault);
    }

    /** `postJSONHandler`: the URL is the decoded `url` field (`None` when decoding fails). */
    method PostJSONHandler(httpMethod: string, request: Option<string>, rnd: RandomRead, responseAddress: string, fault: Error)
      returns (resp: Response)
      requires Valid() && Fills(rnd, CodeLength)
      modifies this`pairsOfURLs, this`lastUUID, this`log, this`logExists
      ensures Valid()
      ensures httpMethod != MethodPost || request == None || request == Some("") ==>
        && resp == Status(StatusBadRequest)
        && pairsOfURLs == old(pairsOfURLs) && lastUUID == old(lastUUID) && log == old(log)
        && logExists == old(logExists)
      ensures httpMethod == MethodPost && request.Some? && request.value != "" && rnd.ReadFailed? ==>
        && resp == Status(StatusBadRequest)
        && pairsOfURLs == old(pairsOfURLs) && lastUUID == old(lastUUID) && log == old(log)
        && logExists == old(logExists)
      ensures httpMethod == MethodPost && request.Some? && request.value != "" && rnd.ReadOk? ==>
        var code := GenerateShortURL(CodeLength, rnd).value;
        && resp == Response(StatusCreated, ShortAddress(responseAddress, code), "")
        && pairsOfURLs == old(pairsOfURLs)[Key(code) := request.value]
        && lastUUID == old(lastUUID) + 1
        && log == old(log) + (if fault == NoError then [Line(UUIDRecord(Itoa(lastUUID), code, request.value))] else [])
        && logExists == (old(logExists) || fault == NoError)
      ensures old(MirrorsLog()) && fault == NoError ==> MirrorsLog()
    {
      if httpMethod != MethodPost || request == None || |request.value| == 0 {
        return Status(StatusBadRequest);
      }
      resp := Shorten(request.value, rnd, responseAddress, fault);
    }

    /** `getURLHandler`: the whole request path is the key. */
    function GetURLHandler(httpMethod: string, path: string): (r: Response)
      reads this`pairsOfURLs
      ensures r.status == StatusTemporaryRedirect <==> httpMethod == MethodGet && path != "" && path in pairsOfURLs
      ensures r.status == StatusTemporaryRedirect ==> r == Response(StatusTemporaryRedirect, "", pairsOfURLs[path])
      ensures r.status != StatusTemporaryRedirect ==> r == Status(StatusBadRequest)
    {
      if httpMethod != MethodGet || |path| == 0 || path !in pairsOfURLs then Status(StatusBadRequest)
      else Response(StatusTemporaryRedirect, "", pairsOfURLs[path])
    }
  }

  /** A shortened URL survives a restart: a fresh process whose memory mirrored the log loads the
      same map and counter back, so every path redirects as before and the next record continues
      the numbering. */
  method Restart(server: Shortener) returns (restarted: Shortener, err: Error)
    requires server.Valid() && server.MirrorsLog()
    ensures fresh(restarted) && restarted.Valid() && err == NoError
    ensures restarted.log == server.log && restarted.lastUUID == server.lastUUID
    ensures forall m, path :: restarted.GetURLHandler(m, path) == server.GetURLHandler(m, path)
  {
    restarted := new Shortener(server.logExists, server.log);
    err := restarted.LoadURLsFromFile(NoError);
    if server.logExists {
      LoadOkIffWellFormed(map[], 0, server.log);
    }
  }

  /** Memory can run ahead of the log: when the append fails, the new path is served now but a
      restart over the file would not bring it back, unless the log already held that code. */
  lemma FailedAppendIsLostOnRestart(log: seq<LogLine>, code: string)
    requires WellFormed(log)
    requires forall i | 0 <= i < |log| :: log[i].record.shortURL != code
    ensures Key(code) !in Load(map[], 0, log).pairs
  {
    LoadMisses(map[], 0, log, code);
  }

  /** A key no record produces is exactly as absent after loading as before. */
  lemma {:induction false} LoadMisses(pairs: map<string, string>, lastUUID: int, lines: seq<LogLine>, code: string)
    requires WellFormed(lines)
    requires forall i | 0 <= i < |lines| :: lines[i].record.shortURL != code
    ensures Key(code) in Load(pairs, lastUUID, lines).pairs <==> Key(code) in pairs
    decreases |lines|
  {
    if lines != [] {
      var r := lines[0].record;
      assert Key(r.shortURL) != Key(code) by {
        assert Key(r.shortURL)[1..] == r.shortURL;
      }
      assert forall i | 1 <= i < |lines| :: lines[i] == lines[1..][i - 1];
      LoadMisses(pairs[Key(r.shortURL) := r.originalURL], AtoiOrZero(r.uuid), lines[1..], code);
    }
  }
}
