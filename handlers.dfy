/** The request decisions of internal/handlers/handlers.go. The store is abstract: a state value
    `S` and the backend operations as functions over it, so the same decisions can be
    instantiated with any backend. Status codes are returned as values; writing the response,
    cookies, logging and JSON encoding are left to the transport. */
module Handlers {
  import opened Wrappers
  import opened Models
  import opened Base64Url
  import opened ShortCode

  const MethodGet := "GET"
  const MethodPost := "POST"

  const StatusCreated: nat := 201
  const StatusTemporaryRedirect: nat := 307
  const StatusBadRequest: nat := 400
  const StatusConflict: nat := 409
  const StatusGone: nat := 410
  const StatusInternalServerError: nat := 500

  /** Length of every generated code. */
  const CodeLength: nat := 8

  const Conflict: Error := Error("conflict")
  const PostgresStorageName := "postgres storage"

  /** The observable answer of a handler: its status, the shortened address it sends (as text or
      as the JSON `result` field; empty when none) and the redirect target (empty when none). */
  datatype Response = Response(status: nat, result: string, location: string)

  function Status(status: nat): Response { Response(status, "", "") }

  /** The address a client gets for a code. */
  function ShortAddress(responseAddress: string, code: string): string
  {
    responseAddress + "/" + code
  }

  /** `store.SaveURL(shortURL, originalURL, userID)`. */
  type SaveFn<!S> = (S, string, string, string) -> (S, string, Error)
  /** `store.SaveBatchTransaction(tx, shortURL, originalURL, userID)` on the transaction's copy. */
  type InsertFn<!S> = (S, string, string, string) -> (S, Error)
  /** `store.GetOriginalURL(shortURL)` as `(originalURL, isDeleted, err)`. */
  type LookupFn<!S> = (S, string) -> (string, bool, Error)

  /** The part shared by both POST handlers once a non-empty URL is in hand: generate a code, save
      it, and map the save outcome to a status. A failed random read answers 400 without calling
      the store; a "conflict" answers 409 with the existing code; any other error 500; success 201
      with the new code. */
  function Shorten<S>(s: S, save: SaveFn<S>, responseAddress: string, url: string, rnd: RandomRead, userID: string)
    : (r: (S, Response))
    requires Fills(rnd, CodeLength)
    ensures rnd.ReadFailed? ==> r == (s, Status(StatusBadRequest))
    ensures rnd.ReadOk? ==>
      var code := GenerateShortURL(CodeLength, rnd).value;
      var (after, existing, err) := save(s, code, url, userID);
      && r.0 == after
      && (err == NoError ==> r.1 == Response(StatusCreated, ShortAddress(responseAddress, code), ""))
      && (err == Conflict ==> r.1 == Response(StatusConflict, ShortAddress(responseAddress, existing), ""))
      && (err != NoError && err != Conflict ==> r.1 == Status(StatusInternalServerError))
    ensures r.1.status in {StatusBadRequest, StatusCreated, StatusConflict, StatusInternalServerError}
  {
    match GenerateShortURL(CodeLength, rnd)
    case Failure(_) => (s, Status(StatusBadRequest))
    case Success(code) =>
      var (after, existing, err) := save(s, code, url, userID);
      if err == NoError then (after, Response(StatusCreated, ShortAddress(responseAddress, code), ""))
      else if err == Conflict then (after, Response(StatusConflict, ShortAddress(responseAddress, existing), ""))
      else (after, Status(StatusInternalServerError))
  }

  /** `PostURLHandler`: the URL is the raw body; `body` is `None` when reading it fails. */
  function PostURL<S>(s: S, save: SaveFn<S>, responseAddress: string, httpMethod: string,
                      body: Option<string>, rnd: RandomRead, userID: string): (r: (S, Response))
    requires Fills(rnd, CodeLength)
    ensures httpMethod != MethodPost || body == None || body == Some("") ==> r == (s, Status(StatusBadRequest))
    ensures httpMethod == MethodPost && body.Some? && body.value != "" ==>
      r == Shorten(s, save, responseAddress, body.value, rnd, userID)
  {
    if httpMethod != MethodPost then (s, Status(StatusBadRequest))
    else match body
      case None => (s, Status(StatusBadRequest))
      case Some(url) =>
        if |url| == 0 then (s, Status(StatusBadRequest))
        else Shorten(s, save, responseAddress, url, rnd, userID)
  }

  /** `PostJSONHandler`: `request` is the decoded `url` field, `None` when decoding fails. */
  function PostJSON<S>(s: S, save: SaveFn<S>, responseAddress: string, httpMethod: string,
                       request: Option<string>, rnd: RandomRead, userID: string): (r: (S, Response))
    requires Fills(rnd, CodeLength)
    ensures httpMethod != MethodPost || request == None || request == Some("") ==> r == (s, Status(StatusBadRequest))
    ensures httpMethod == MethodPost && request.Some? && request.value != "" ==>
      r == Shorten(s, save, responseAddress, request.value, rnd, userID)
  {
    if httpMethod != MethodPost then (s, Status(StatusBadRequest))
    else match request
      case None => (s, Status(StatusBadRequest))
      case Some(url) =>
        if |url| == 0 then (s, Status(StatusBadRequest))
        else Shorten(s, save, responseAddress, url, rnd, userID)
  }

  /** `GetURLHandler`: the code is the request path without its leading character. An empty code
      or a lookup error answers 400, a tombstoned code 410, anything else redirects with 307. */
  function GetURL<S>(s: S, lookup: LookupFn<S>, httpMethod: string, path: string): (r: Response)
    requires |path| >= 1
    ensures r.status == StatusTemporaryRedirect <==>
      httpMethod == MethodGet && |path| > 1 && lookup(s, path[1..]).2 == NoError && !lookup(s, path[1..]).1
    ensures r.status == StatusTemporaryRedirect ==> r == Response(StatusTemporaryRedirect, "", lookup(s, path[1..]).0)
    ensures r.status == StatusGone <==>
      httpMethod == MethodGet && |path| > 1 && lookup(s, path[1..]).2 == NoError && lookup(s, path[1..]).1
    ensures r.status != StatusTemporaryRedirect && r.status != StatusGone ==> r == Status(StatusBadRequest)
  {
    if httpMethod != MethodGet then Status(StatusBadRequest)
    else
      var code := path[1..];
      if |code| == 0 then Status(StatusBadRequest)
      else
        var (originalURL, isDeleted, err) := lookup(s, code);
        if err != NoError then Status(StatusBadRequest)
        else if isDeleted then Status(StatusGone)
        else Response(StatusTemporaryRedirect, "", originalURL)
  }

  /** Outcome of a batch request: the new store state, the status, and (on 201) the responses. */
  datatype BatchOutcome<S> = BatchOutcome(state: S, status: nat, responses: seq<BatchResponse>)

  /** Every record has a read of exactly the code length to draw from. */
  predicate Supplied(records: seq<AddNewURLRecord>, entropy: seq<RandomRead>)
  {
    |entropy| == |records| && forall i | 0 <= i < |entropy| :: Fills(entropy[i], CodeLength)
  }

  /** Place the responses of records already processed in front of the outcome of the rest; a
      failed outcome carries no responses, since the handler then writes only a status. */
  function Prepend<S>(responses: seq<BatchResponse>, o: BatchOutcome<S>): BatchOutcome<S>
  {
    if o.status == StatusCreated then o.(responses := responses + o.responses) else o
  }

  /** The per-record loop of `PostBatchURLHandler`: in input order, an empty URL stops with 400, a
      failed code generation or save with 500; earlier saves are not undone. */
  function RunBatch<S>(s: S, save: SaveFn<S>, responseAddress: string, records: seq<AddNewURLRecord>,
                       entropy: seq<RandomRead>, userID: string): BatchOutcome<S>
    requires Supplied(records, entropy)
    decreases |records|
  {
    if records == [] then BatchOutcome(s, StatusCreated, [])
    else
      var record := records[0];
      if record.originalURL == "" then BatchOutcome(s, StatusBadRequest, [])
      else match GenerateShortURL(CodeLength, entropy[0])
        case Failure(_) => BatchOutcome(s, StatusInternalServerError, [])
        case Success(code) =>
          var (after, _, err) := save(s, code, record.originalURL, userID);
          if err != NoError then BatchOutcome(after, StatusInternalServerError, [])
          else
            Prepend([BatchResponse(record.id, ShortAddress(responseAddress, code))],
                    RunBatch(after, save, responseAddress, records[1..], entropy[1..], userID))
  }

  lemma PrependPrepend<S>(p: seq<BatchResponse>, q: seq<BatchResponse>, o: BatchOutcome<S>)
    ensures Prepend(p, Prepend(q, o)) == Prepend(p + q, o)
  {
  }

  /** Splitting a batch: the first part runs to completion or failure and its effects stay in
      place; only when it succeeds does the second part run, on the state the first part left. */
  lemma {:induction false} RunBatchSplit<S>(s: S, save: SaveFn<S>, responseAddress: string, a: seq<AddNewURLRecord>,
                                            b: seq<AddNewURLRecord>, entropy: seq<RandomRead>, userID: string)
    requires Supplied(a + b, entropy)
    ensures Supplied(a, entropy[..|a|]) && Supplied(b, entropy[|a|..])
    ensures var first := RunBatch(s, save, responseAddress, a, entropy[..|a|], userID);
      RunBatch(s, save, responseAddress, a + b, entropy, userID) ==
        if first.status == StatusCreated
        then Prepend(first.responses, RunBatch(first.state, save, responseAddress, b, entropy[|a|..], userID))
        else first
    decreases |a|
  {
    if a != [] {
      assert (a + b)[0] == a[0] && (a + b)[1..] == a[1..] + b;
      assert entropy[..|a|][1..] == entropy[1..][..|a| - 1];
      assert entropy[..|a|][0] == entropy[0];
      assert entropy[|a|..] == entropy[1..][|a| - 1..];
      var record := a[0];
      if record.originalURL != "" && GenerateShortURL(CodeLength, entropy[0]).Success? {
        var code := GenerateShortURL(CodeLength, entropy[0]).value;
        var (after, _, err) := save(s, code, record.originalURL, userID);
        if err == NoError {
          RunBatchSplit(after, save, responseAddress, a[1..], b, entropy[1..], userID);
          var rest := RunBatch(after, save, responseAddress, a[1..], entropy[1..][..|a| - 1], userID);
          if rest.status == StatusCreated {
            PrependPrepend([BatchResponse(record.id, ShortAddress(responseAddress, code))], rest.responses,
                           RunBatch(rest.state, save, responseAddress, b, entropy[|a|..], userID));
          }
        }
      }
    } else {
      assert a + b == b && entropy[..0] == [] && entropy[0..] == entropy;
    }
  }

  /** A batch answered 201 pairs each correlation id, in input order, with the address of the code
      generated for that record, and every record carried a URL. */
  lemma {:induction false} RunBatchResponses<S>(s: S, save: SaveFn<S>, responseAddress: string, records: seq<AddNewURLRecord>,
                                                entropy: seq<RandomRead>, userID: string)
    requires Supplied(records, entropy)
    ensures var o := RunBatch(s, save, responseAddress, records, entropy, userID);
      o.status == StatusCreated ==>
        && |o.responses| == |records|
        && forall i | 0 <= i < |records| ::
             && records[i].originalURL != ""
             && GenerateShortURL(CodeLength, entropy[i]).Success?
             && o.responses[i] == BatchResponse(records[i].id, ShortAddress(responseAddress, GenerateShortURL(CodeLength, entropy[i]).value))
    decreases |records|
  {
    if records != [] && records[0].originalURL != "" && GenerateShortURL(CodeLength, entropy[0]).Success? {
      var code := GenerateShortURL(CodeLength, entropy[0]).value;
      var (after, _, err) := save(s, code, records[0].originalURL, userID);
      if err == NoError {
        RunBatchResponses(after, save, responseAddress, records[1..], entropy[1..], userID);
        var o := RunBatch(s, save, responseAddress, records, entropy, userID);
        if o.status == StatusCreated {
          forall i | 1 <= i < |records|
            ensures records[i] == records[1..][i - 1] && entropy[i] == entropy[1..][i - 1]
          {
          }
        }
      }
    }
  }

  /** `SaveBatchTransaction` seen as a save whose returned code is never used. */
  function InTransaction<S>(insert: InsertFn<S>): SaveFn<S>
  {
    (w: S, code: string, url: string, userID: string) =>
      var (after, err) := insert(w, code, url, userID); (after, "", err)
  }

  /** The Postgres path of `PostBatchURLHandler`: the loop runs inside a transaction; leaving
      before `Commit` or a failed `Commit` rolls back, so the store either receives every insert
      or none. A failed `Begin` answers 500 before any record is looked at. */
  function TransactionalBatch<S>(s: S, insert: InsertFn<S>, responseAddress: string, records: seq<AddNewURLRecord>,
                                 entropy: seq<RandomRead>, userID: string, beginFault: Error, commitFault: Error)
    : (o: BatchOutcome<S>)
    requires Supplied(records, entropy)
    ensures o.status != StatusCreated ==> o.state == s
    ensures o.status == StatusCreated <==>
      beginFault == NoError && commitFault == NoError &&
      RunBatch(s, InTransaction(insert), responseAddress, records, entropy, userID).status == StatusCreated
    ensures o.status == StatusCreated ==> o == RunBatch(s, InTransaction(insert), responseAddress, records, entropy, userID)
  {
    if beginFault != NoError then BatchOutcome(s, StatusInternalServerError, [])
    else
      var run := RunBatch(s, InTransaction(insert), responseAddress, records, entropy, userID);
      if run.status != StatusCreated then BatchOutcome(s, run.status, [])
      else if commitFault != NoError then BatchOutcome(s, StatusInternalServerError, [])
      else run
  }

  /** The imperative loop of `PostBatchURLHandler` over a store state and a list of records. */
  method SaveRecords<S>(s: S, save: SaveFn<S>, responseAddress: string, records: seq<AddNewURLRecord>,
                        entropy: seq<RandomRead>, userID: string) returns (o: BatchOutcome<S>)
    requires Supplied(records, entropy)
    ensures o == RunBatch(s, save, responseAddress, records, entropy, userID)
  {
    var state := s;
    var responses: seq<BatchResponse> := [];
    var i := 0;
    while i < |records|
      invariant 0 <= i <= |records|
      invariant Supplied(records[i..], entropy[i..])
      invariant Prepend(responses, RunBatch(state, save, responseAddress, records[i..], entropy[i..], userID))
                == RunBatch(s, save, responseAddress, records, entropy, userID)
    {
      var record := records[i];
      assert records[i..][0] == record && records[i..][1..] == records[i + 1..];
      assert entropy[i..][0] == entropy[i] && entropy[i..][1..] == entropy[i + 1..];
      if record.originalURL == "" {
        return BatchOutcome(state, StatusBadRequest, []);
      }
      var generated := GenerateShortURL(CodeLength, entropy[i]);
      if generated.Failure? {
        return BatchOutcome(state, StatusInternalServerError, []);
      }
      var code := generated.value;
      var (after, _, err) := save(state, code, record.originalURL, userID);
      if err != NoError {
        return BatchOutcome(after, StatusInternalServerError, []);
      }
      var response := BatchResponse(record.id, ShortAddress(responseAddress, code));
      PrependPrepend(responses, [response],
                     RunBatch(after, save, responseAddress, records[i + 1..], entropy[i + 1..], userID));
      responses := responses + [response];
      state := after;
      i := i + 1;
    }
    o := BatchOutcome(state, StatusCreated, responses);
  }

  /** `PostBatchURLHandler`: `request` is the decoded body (`None` when decoding fails); the
      storage name picks the transactional path. An undecodable or empty batch answers 400 with
      the store untouched. */
  method PostBatchURL<S>(s: S, storageName: string, save: SaveFn<S>, insert: InsertFn<S>, responseAddress: string,
                         request: Option<seq<AddNewURLRecord>>, entropy: seq<RandomRead>, userID: string,
                         beginFault: Error, commitFault: Error) returns (o: BatchOutcome<S>)
    requires request.Some? ==> Supplied(request.value, entropy)
    ensures request == None || request == Some([]) ==> o == BatchOutcome(s, StatusBadRequest, [])
    ensures request.Some? && request.value != [] && storageName == PostgresStorageName ==>
      o == TransactionalBatch(s, insert, responseAddress, request.value, entropy, userID, beginFault, commitFault)
    ensures request.Some? && request.value != [] && storageName != PostgresStorageName ==>
      o == RunBatch(s, save, responseAddress, request.value, entropy, userID)
  {
    if request == None || |request.value| == 0 {
      return BatchOutcome(s, StatusBadRequest, []);
    }
    var records := request.value;
    if storageName == PostgresStorageName {
      if beginFault != NoError {
        return BatchOutcome(s, StatusInternalServerError, []);
      }
      var run := SaveRecords(s, InTransaction(insert), responseAddress, records, entropy, userID);
      if run.status != StatusCreated {
        return BatchOutcome(s, run.status, []);
      }
      if commitFault != NoError {
        return BatchOutcome(s, StatusInternalServerError, []);
      }
      o := run;
    } else {
      o := SaveRecords(s, save, responseAddress, records, entropy, userID);
    }
  }
}
