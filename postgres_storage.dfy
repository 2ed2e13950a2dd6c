/** The relational backend of internal/storage/postgres_storage.go. Each SQL statement is given
    its meaning over the `urls` table, modelled as a sequence of rows in storage order. The table
    is taken to carry a unique index on `original_url` (the `ON CONFLICT (original_url)` target
    requires one) and a unique index on `short_url`; `is_deleted` defaults to false. */
module PostgresBackend {
  import opened Wrappers
  import opened Models
  import opened Sql

  /** Text of the store's unique-constraint violation, as far as the model needs it. */
  const UniqueViolation: Error := Error("duplicate key value violates unique constraint")
  const Conflict: Error := Error("conflict")
  const NotFound: Error := Error("not found")
  const NilTransaction: Error := Error("transaction is nil")
  const NotImplemented: Error := Error("not implemented")

  datatype Column = ShortURLColumn | OriginalURLColumn | UserIDColumn

  function Cell(r: Row, col: Column): string
  {
    match col
    case ShortURLColumn => r.shortURL
    case OriginalURLColumn => r.originalURL
    case UserIDColumn => r.userID
  }

  /** Position of the first row whose `col` equals `key` (the row `QueryRow` scans), -1 if none. */
  function IndexOf(rows: seq<Row>, col: Column, key: string): (i: int)
    ensures -1 <= i < |rows|
    ensures i >= 0 ==> Cell(rows[i], col) == key
    ensures i >= 0 ==> forall j | 0 <= j < i :: Cell(rows[j], col) != key
    ensures i < 0 <==> forall j | 0 <= j < |rows| :: Cell(rows[j], col) != key
    decreases |rows|
  {
    if rows == [] then -1
    else if Cell(rows[0], col) == key then 0
    else
      var k := IndexOf(rows[1..], col, key);
      assert forall j | 1 <= j < |rows| :: rows[j] == rows[1..][j - 1];
      if k < 0 then -1 else k + 1
  }

  /** No two rows share a value in `col`. */
  predicate Unique(rows: seq<Row>, col: Column)
  {
    forall i, j | 0 <= i < j < |rows| :: Cell(rows[i], col) != Cell(rows[j], col)
  }

  /** The table's constraints: unique `short_url` and unique `original_url`, tombstoned rows
      included. */
  predicate TableValid(rows: seq<Row>)
  {
    Unique(rows, ShortURLColumn) && Unique(rows, OriginalURLColumn)
  }

  /** A row keeps its owner, code and URL. */
  predicate SameIdentity(a: Row, b: Row)
  {
    a.userID == b.userID && a.shortURL == b.shortURL && a.originalURL == b.originalURL
  }

  /** How the table may change under the statements of this backend: rows are only appended, a
      row's owner, code and URL never change, and a set tombstone is never cleared. */
  predicate Evolves(before: seq<Row>, after: seq<Row>)
  {
    && |before| <= |after|
    && forall i | 0 <= i < |before| ::
         SameIdentity(before[i], after[i]) && (before[i].isDeleted ==> after[i].isDeleted)
  }

  lemma EvolvesTransitive(a: seq<Row>, b: seq<Row>, c: seq<Row>)
    requires Evolves(a, b) && Evolves(b, c)
    ensures Evolves(a, c)
  {
  }

  /** Appending a row to a valid table keeps it valid when its code and URL are both new. */
  lemma AppendKeepsValid(rows: seq<Row>, row: Row)
    requires IndexOf(rows, ShortURLColumn, row.shortURL) < 0
    requires IndexOf(rows, OriginalURLColumn, row.originalURL) < 0
    ensures TableValid(rows) ==> TableValid(rows + [row])
  {
    if !TableValid(rows) { return; }
    var t := rows + [row];
    forall i, j | 0 <= i < j < |t| ensures Cell(t[i], ShortURLColumn) != Cell(t[j], ShortURLColumn) {
      if j == |rows| { assert Cell(rows[i], ShortURLColumn) != row.shortURL; }
    }
    forall i, j | 0 <= i < j < |t| ensures Cell(t[i], OriginalURLColumn) != Cell(t[j], OriginalURLColumn) {
      if j == |rows| { assert Cell(rows[i], OriginalURLColumn) != row.originalURL; }
    }
  }

  /** `INSERT INTO urls (user_id, short_url, original_url) VALUES (...)`: appends a live row, or
      fails on either unique index and leaves the table as it was. */
  function Insert(rows: seq<Row>, userID: string, shortURL: string, originalURL: string): (r: (seq<Row>, Error))
    ensures r.1 == NoError <==>
      (forall i | 0 <= i < |rows| :: rows[i].originalURL != originalURL && rows[i].shortURL != shortURL)
    ensures r.1 == NoError ==> r.0 == rows + [Row(userID, shortURL, originalURL, false)]
    ensures r.1 != NoError ==> r.0 == rows && r.1 == UniqueViolation
    ensures TableValid(rows) ==> TableValid(r.0)
    ensures Evolves(rows, r.0)
  {
    if IndexOf(rows, OriginalURLColumn, originalURL) >= 0 || IndexOf(rows, ShortURLColumn, shortURL) >= 0 then
      (rows, UniqueViolation)
    else
      var row := Row(userID, shortURL, originalURL, false);
      AppendKeepsValid(rows, row);
      assert forall i | 0 <= i < |rows| :: Cell(rows[i], OriginalURLColumn) != originalURL;
      assert forall i | 0 <= i < |rows| :: Cell(rows[i], ShortURLColumn) != shortURL;
      (rows + [row], NoError)
  }

  /** `GetShortURLByOriginal`: the code of the row holding the URL, with the error "conflict";
      no such row gives `("", nil)`. */
  function SelectShortByOriginal(rows: seq<Row>, originalURL: string): (r: (string, Error))
    ensures r.1 == Conflict <==> exists i | 0 <= i < |rows| :: rows[i].originalURL == originalURL
    ensures r.1 == Conflict ==> exists i | 0 <= i < |rows| :: rows[i].originalURL == originalURL && rows[i].shortURL == r.0
    ensures r.1 != Conflict ==> r == ("", NoError)
  {
    var i := IndexOf(rows, OriginalURLColumn, originalURL);
    if i >= 0 then (rows[i].shortURL, Conflict)
    else
      assert forall j | 0 <= j < |rows| :: Cell(rows[j], OriginalURLColumn) != originalURL;
      ("", NoError)
  }

  /** `SaveURL`: `INSERT ... ON CONFLICT (original_url) DO NOTHING RETURNING short_url`. A new
      URL is inserted and its code returned; a URL already in the table -- tombstoned or not --
      inserts nothing and returns that row's code with "conflict"; a code already taken by
      another URL fails on the `short_url` index. */
  function SaveOutcome(rows: seq<Row>, shortURL: string, originalURL: string, userID: string): (r: (seq<Row>, string, Error))
    ensures (exists i | 0 <= i < |rows| :: rows[i].originalURL == originalURL) ==>
      r.0 == rows && r.2 == Conflict &&
      exists i | 0 <= i < |rows| :: rows[i].originalURL == originalURL && rows[i].shortURL == r.1
    ensures (forall i | 0 <= i < |rows| :: rows[i].originalURL != originalURL && rows[i].shortURL != shortURL) ==>
      r == (rows + [Row(userID, shortURL, originalURL, false)], shortURL, NoError)
    ensures r.2 == NoError ==> r == (rows + [Row(userID, shortURL, originalURL, false)], shortURL, NoError)
    ensures r.2 != NoError ==> r.0 == rows
    ensures TableValid(rows) ==> TableValid(r.0)
    ensures Evolves(rows, r.0)
  {
    if IndexOf(rows, OriginalURLColumn, originalURL) >= 0 then
      var (existing, err) := SelectShortByOriginal(rows, originalURL);
      (rows, existing, err)
    else
      var (after, err) := Insert(rows, userID, shortURL, originalURL);
      if err == NoError then (after, shortURL, NoError) else (rows, "", err)
  }

  /** `GetOriginalURL`: `SELECT original_url, is_deleted FROM urls WHERE short_url = $1`. */
  function SelectOriginal(rows: seq<Row>, shortURL: string): (r: OriginalURLSelectionResult)
    ensures r.error == NoError <==> exists i | 0 <= i < |rows| :: rows[i].shortURL == shortURL
    ensures r.error != NoError ==> r == OriginalURLSelectionResult("", false, NotFound, "")
    ensures forall i | 0 <= i < |rows| && rows[i].shortURL == shortURL ::
      Unique(rows, ShortURLColumn) ==> r == OriginalURLSelectionResult(rows[i].originalURL, rows[i].isDeleted, NoError, "")
  {
    var i := IndexOf(rows, ShortURLColumn, shortURL);
    if i < 0 then OriginalURLSelectionResult("", false, NotFound, "")
    else OriginalURLSelectionResult(rows[i].originalURL, rows[i].isDeleted, NoError, "")
  }

  /** `MarkURLsAsDeleted`: `UPDATE urls SET is_deleted = TRUE WHERE user_id = $1 AND short_url =
      ANY($2)`. */
  function MarkDeleted(rows: seq<Row>, userID: string, urlIDs: seq<string>): (r: seq<Row>)
    ensures |r| == |rows|
    ensures forall i | 0 <= i < |rows| :: SameIdentity(rows[i], r[i])
    ensures forall i | 0 <= i < |rows| ::
      r[i].isDeleted <==> rows[i].isDeleted || (rows[i].userID == userID && rows[i].shortURL in urlIDs)
  {
    seq(|rows|, i requires 0 <= i < |rows| =>
      if rows[i].userID == userID && rows[i].shortURL in urlIDs then rows[i].(isDeleted := true) else rows[i])
  }

  /** The table only evolves under tombstoning, and its constraints still hold. */
  lemma MarkDeletedEvolves(rows: seq<Row>, userID: string, urlIDs: seq<string>)
    ensures Evolves(rows, MarkDeleted(rows, userID, urlIDs))
    ensures TableValid(rows) ==> TableValid(MarkDeleted(rows, userID, urlIDs))
  {
    var r := MarkDeleted(rows, userID, urlIDs);
    assert forall i | 0 <= i < |rows| :: Cell(r[i], ShortURLColumn) == Cell(rows[i], ShortURLColumn);
    assert forall i | 0 <= i < |rows| :: Cell(r[i], OriginalURLColumn) == Cell(rows[i], OriginalURLColumn);
  }

  /** Ownership isolation: rows of other owners are left exactly as they were, even when their
      code is among `urlIDs`. */
  lemma MarkDeletedIsolatesOwners(rows: seq<Row>, userID: string, urlIDs: seq<string>, i: int)
    requires 0 <= i < |rows| && rows[i].userID != userID
    ensures MarkDeleted(rows, userID, urlIDs)[i] == rows[i]
  {
    var r := MarkDeleted(rows, userID, urlIDs);
    assert SameIdentity(rows[i], r[i]) && r[i].isDeleted == rows[i].isDeleted;
  }

  /** `GetAllUserURLs`: `SELECT short_url, original_url FROM urls WHERE user_id = $1`, in table
      order, tombstoned rows included. */
  function OwnedPairs(rows: seq<Row>, userID: string): seq<BasePairsOfURLsResponse>
    decreases |rows|
  {
    if rows == [] then []
    else
      var last := rows[|rows| - 1];
      OwnedPairs(rows[..|rows| - 1], userID)
        + (if last.userID == userID then [BasePairsOfURLsResponse(last.shortURL, last.originalURL)] else [])
  }

  /** The listing holds a pair exactly when some row of that owner carries it: nothing of another
      owner is listed, and nothing of this owner -- live or tombstoned -- is missing. */
  lemma {:induction false} OwnedPairsExact(rows: seq<Row>, userID: string, p: BasePairsOfURLsResponse)
    ensures p in OwnedPairs(rows, userID) <==>
      exists i | 0 <= i < |rows| :: rows[i].userID == userID && rows[i].shortURL == p.shortURL && rows[i].originalURL == p.originalURL
    decreases |rows|
  {
    if rows != [] {
      var init := rows[..|rows| - 1];
      OwnedPairsExact(init, userID, p);
      assert forall i | 0 <= i < |init| :: init[i] == rows[i];
    }
  }

  /** As written, the owner listing still shows a code its owner deleted. */
  lemma OwnedPairsListsDeleted()
    ensures var rows := [Row("u1", "abc12345", "https://example.com/a", false)];
      var deleted := MarkDeleted(rows, "u1", ["abc12345"]);
      OwnedPairs(deleted, "u1") == [BasePairsOfURLsResponse("abc12345", "https://example.com/a")]
  {
    var rows := [Row("u1", "abc12345", "https://example.com/a", false)];
    var deleted := MarkDeleted(rows, "u1", ["abc12345"]);
    assert deleted[..0] == [];
  }

  /** The evidently intended listing: the owner's live rows only. */
  function LiveOwnedPairs(rows: seq<Row>, userID: string): seq<BasePairsOfURLsResponse>
    decreases |rows|
  {
    if rows == [] then []
    else
      var last := rows[|rows| - 1];
      LiveOwnedPairs(rows[..|rows| - 1], userID)
        + (if last.userID == userID && !last.isDeleted then [BasePairsOfURLsResponse(last.shortURL, last.originalURL)] else [])
  }

  /** The intended listing holds a pair exactly when a live row of that owner carries it. */
  lemma {:induction false} LiveOwnedPairsExact(rows: seq<Row>, userID: string, p: BasePairsOfURLsResponse)
    ensures p in LiveOwnedPairs(rows, userID) <==>
      exists i | 0 <= i < |rows| ::
        rows[i].userID == userID && !rows[i].isDeleted && rows[i].shortURL == p.shortURL && rows[i].originalURL == p.originalURL
    decreases |rows|
  {
    if rows != [] {
      var init := rows[..|rows| - 1];
      LiveOwnedPairsExact(init, userID, p);
      assert forall i | 0 <= i < |init| :: init[i] == rows[i];
    }
  }

  /** Save, re-save by another user, lookup, delete, lookup: the first save returns its own code,
      the second reports the conflict with that code, and after the owner deletes it the lookup
      still finds the URL, now flagged deleted. The owner slot of the lookup stays empty, since the
      query selects no owner. */
  lemma SaveConflictDeleteScenario()
    ensures var (t1, c1, e1) := SaveOutcome([], "abc12345", "https://example.com/a", "u1");
      var (t2, c2, e2) := SaveOutcome(t1, "xyz98765", "https://example.com/a", "u2");
      && (c1, e1) == ("abc12345", NoError)
      && (t2, c2, e2) == (t1, "abc12345", Conflict)
      && SelectOriginal(t2, "abc12345") == OriginalURLSelectionResult("https://example.com/a", false, NoError, "")
      && SelectOriginal(MarkDeleted(t2, "u1", ["abc12345"]), "abc12345")
           == OriginalURLSelectionResult("https://example.com/a", true, NoError, "")
  {
    var t1 := SaveOutcome([], "abc12345", "https://example.com/a", "u1").0;
    assert t1 == [Row("u1", "abc12345", "https://example.com/a", false)];
    SaveURLDeduplicates(t1, 0, "xyz98765", "u2");
    TombstoneBlocksResave(t1, 0, ["abc12345"], "xyz98765", "u2");
  }

  /** Tombstone persistence: once `GetOriginalURL` reports a code deleted, it keeps doing so in
      every later table the statements can produce. */
  lemma DeletedStaysDeleted(before: seq<Row>, after: seq<Row>, shortURL: string)
    requires Evolves(before, after) && Unique(after, ShortURLColumn)
    requires SelectOriginal(before, shortURL).error == NoError && SelectOriginal(before, shortURL).isDeleted
    ensures SelectOriginal(after, shortURL).isDeleted
    ensures SelectOriginal(after, shortURL).originalURL == SelectOriginal(before, shortURL).originalURL
  {
    var i := IndexOf(before, ShortURLColumn, shortURL);
    assert SameIdentity(before[i], after[i]);
    assert after[i].shortURL == shortURL;
  }

  /** A tombstone survives a save followed by another deletion, whatever their arguments. */
  lemma TombstoneSurvivesSaveThenDelete(before: seq<Row>, shortURL: string, newCode: string, url: string,
                                        userID: string, owner: string, urlIDs: seq<string>)
    requires TableValid(before)
    requires SelectOriginal(before, shortURL).error == NoError && SelectOriginal(before, shortURL).isDeleted
    ensures var after := MarkDeleted(SaveOutcome(before, newCode, url, userID).0, owner, urlIDs);
      && SelectOriginal(after, shortURL).isDeleted
      && SelectOriginal(after, shortURL).originalURL == SelectOriginal(before, shortURL).originalURL
  {
    var saved := SaveOutcome(before, newCode, url, userID).0;
    var after := MarkDeleted(saved, owner, urlIDs);
    MarkDeletedEvolves(saved, owner, urlIDs);
    EvolvesTransitive(before, saved, after);
    assert Unique(after, ShortURLColumn) by {
      forall i, j | 0 <= i < j < |after|
        ensures Cell(after[i], ShortURLColumn) != Cell(after[j], ShortURLColumn)
      {
        assert SameIdentity(saved[i], after[i]) && SameIdentity(saved[j], after[j]);
      }
    }
    DeletedStaysDeleted(before, after, shortURL);
  }

  /** Dedup: saving a URL already in a valid table returns the one code it is stored under. */
  lemma SaveURLDeduplicates(rows: seq<Row>, i: int, shortURL: string, userID: string)
    requires TableValid(rows) && 0 <= i < |rows|
    ensures SaveOutcome(rows, shortURL, rows[i].originalURL, userID) == (rows, rows[i].shortURL, Conflict)
  {
    var k := IndexOf(rows, OriginalURLColumn, rows[i].originalURL);
    assert Cell(rows[i], OriginalURLColumn) == rows[i].originalURL;
  }

  /** A tombstone still blocks saving its URL again, by anyone: the conflict target is unscoped,
      so after the owner deletes a code, saving the same URL returns the deleted code, whose
      lookup reports it gone. */
  lemma TombstoneBlocksResave(rows: seq<Row>, i: int, urlIDs: seq<string>, shortURL: string, userID: string)
    requires TableValid(rows) && 0 <= i < |rows| && rows[i].shortURL in urlIDs
    ensures var after := MarkDeleted(rows, rows[i].userID, urlIDs);
      && SaveOutcome(after, shortURL, rows[i].originalURL, userID) == (after, rows[i].shortURL, Conflict)
      && SelectOriginal(after, rows[i].shortURL) == OriginalURLSelectionResult(rows[i].originalURL, true, NoError, "")
  {
    var after := MarkDeleted(rows, rows[i].userID, urlIDs);
    MarkDeletedEvolves(rows, rows[i].userID, urlIDs);
    assert after[i].isDeleted && SameIdentity(rows[i], after[i]);
    SaveURLDeduplicates(after, i, shortURL, userID);
  }

  class PostgresStorage {
    var rows: seq<Row>
    const storageName: string := "postgres storage"

    ghost predicate Valid()
      reads this
    {
      TableValid(rows)
    }

    /** `NewPostgresStorage` over a table that satisfies its constraints. */
    constructor (table: seq<Row>)
      requires TableValid(table)
      ensures Valid() && rows == table
    {
      rows := table;
    }

    method SaveURL(shortURL: string, originalURL: string, userID: string) returns (code: string, err: Error)
      requires Valid()
      modifies this
      ensures Valid() && Evolves(old(rows), rows)
      ensures (rows, code, err) == SaveOutcome(old(rows), shortURL, originalURL, userID)
    {
      var outcome := SaveOutcome(rows, shortURL, originalURL, userID);
      rows, code, err := outcome.0, outcome.1, outcome.2;
    }

    /** `SaveBatchTransaction`: a plain insert inside the caller's transaction. */
    method SaveBatchTransaction(tx: Tx?, shortURL: string, originalURL: string, userID: string) returns (err: Error)
      modifies tx
      ensures tx == null ==> err == NilTransaction
      ensures tx != null ==> (tx.rows, err) == Insert(old(tx.rows), userID, shortURL, originalURL)
    {
      if tx == null {
        return NilTransaction;
      }
      var outcome := Insert(tx.rows, userID, shortURL, originalURL);
      tx.rows, err := outcome.0, outcome.1;
    }

    function GetOriginalURL(shortURL: string): (r: OriginalURLSelectionResult)
      reads this
      ensures r.error == NoError <==> exists i | 0 <= i < |rows| :: rows[i].shortURL == shortURL
    {
      SelectOriginal(rows, shortURL)
    }

    function GetShortURLByOriginal(originalURL: string): (r: (string, Error))
      reads this
      ensures r.1 == Conflict <==> exists i | 0 <= i < |rows| :: rows[i].originalURL == originalURL
    {
      SelectShortByOriginal(rows, originalURL)
    }

    function GetStorageName(): (r: (string, Error))
      ensures r == ("postgres storage", NoError)
    {
      (storageName, NoError)
    }

    method SaveBatch(records: seq<AddNewURLRecord>) returns (err: Error)
      ensures err == NotImplemented
    {
      err := NotImplemented;
    }

    /** `GetAllUserURLs`: scan the result rows and append each pair; no matching row gives an
        empty listing and no error. */
    method GetAllUserURLs(userID: string) returns (records: seq<BasePairsOfURLsResponse>, err: Error)
      ensures records == OwnedPairs(rows, userID) && err == NoError
      ensures forall p :: p in records <==>
        exists i | 0 <= i < |rows| :: rows[i].userID == userID && rows[i].shortURL == p.shortURL && rows[i].originalURL == p.originalURL
    {
      records := [];
      var i := 0;
      while i < |rows|
        invariant 0 <= i <= |rows|
        invariant records == OwnedPairs(rows[..i], userID)
      {
        assert rows[..i + 1][..i] == rows[..i];
        if rows[i].userID == userID {
          records := records + [BasePairsOfURLsResponse(rows[i].shortURL, rows[i].originalURL)];
        }
        i := i + 1;
      }
      assert rows[..i] == rows;
      forall p ensures p in records <==>
        exists i | 0 <= i < |rows| :: rows[i].userID == userID && rows[i].shortURL == p.shortURL && rows[i].originalURL == p.originalURL
      {
        OwnedPairsExact(rows, userID, p);
      }
      err := NoError;
    }

    method MarkURLsAsDeleted(userID: string, urlIDs: seq<string>) returns (err: Error)
      requires Valid()
      modifies this
      ensures Valid() && Evolves(old(rows), rows)
      ensures rows == MarkDeleted(old(rows), userID, urlIDs) && err == NoError
    {
      MarkDeletedEvolves(rows, userID, urlIDs);
      rows := MarkDeleted(rows, userID, urlIDs);
      err := NoError;
    }
  }
}
