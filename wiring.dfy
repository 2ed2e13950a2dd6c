/** The handlers of internal/handlers/handlers.go with a concrete backend plugged in, as
    `InitializeStorage` wires one, and what the combination guarantees end to end. */
module Wiring {
  import opened Wrappers
  import opened Models
  import opened Sql
  import opened ShortCode
  import opened Handlers
  import MemoryBackend
  import PostgresBackend

  /** The volatile backend's operations over its map. */
  function MemorySave(urls: map<string, Attributes>, shortURL: string, originalURL: string, userID: string)
    : (map<string, Attributes>, string, Error)
  {
    MemoryBackend.Save(urls, shortURL, originalURL, userID)
  }

  function MemoryLookup(urls: map<string, Attributes>, shortURL: string): (string, bool, Error)
  {
    MemoryBackend.Lookup(urls, shortURL)
  }

  /** The relational backend's operations over its table. */
  function PostgresSave(rows: seq<Row>, shortURL: string, originalURL: string, userID: string): (seq<Row>, string, Error)
  {
    PostgresBackend.SaveOutcome(rows, shortURL, originalURL, userID)
  }

  function PostgresInsert(rows: seq<Row>, shortURL: string, originalURL: string, userID: string): (seq<Row>, Error)
  {
    PostgresBackend.Insert(rows, userID, shortURL, originalURL)
  }

  function PostgresLookup(rows: seq<Row>, shortURL: string): (string, bool, Error)
  {
    var r := PostgresBackend.SelectOriginal(rows, shortURL);
    (r.originalURL, r.isDeleted, r.error)
  }

  /** Whatever a save keeps, a whole batch keeps, whether it completes or stops early. */
  lemma {:induction false} RunBatchKeeps<S>(P: S -> bool, s: S, save: SaveFn<S>, responseAddress: string,
                                            records: seq<AddNewURLRecord>, entropy: seq<RandomRead>, userID: string)
    requires Supplied(records, entropy)
    requires forall t: S, c: string, u: string, id: string {:trigger save(t, c, u, id)} :: P(t) ==> P(save(t, c, u, id).0)
    requires P(s)
    ensures P(RunBatch(s, save, responseAddress, records, entropy, userID).state)
    decreases |records|
  {
    if records != [] && records[0].originalURL != "" && GenerateShortURL(CodeLength, entropy[0]).Success? {
      var code := GenerateShortURL(CodeLength, entropy[0]).value;
      var after := save(s, code, records[0].originalURL, userID).0;
      assert P(after);
      RunBatchKeeps(P, after, save, responseAddress, records[1..], entropy[1..], userID);
    }
  }

  /** Posting the same URL twice to the relational backend: the first post creates a code, the
      second answers 409 with that same code and leaves the table as it was. */
  lemma PostgresRepostConflicts(rows: seq<Row>, responseAddress: string, url: string,
                                rnd1: RandomRead, rnd2: RandomRead, user1: string, user2: string)
    requires PostgresBackend.TableValid(rows) && url != ""
    requires Fills(rnd1, CodeLength) && Fills(rnd2, CodeLength) && rnd2.ReadOk?
    ensures var (after, first) := PostURL(rows, PostgresSave, responseAddress, MethodPost, Some(url), rnd1, user1);
      first.status == StatusCreated ==>
        PostURL(after, PostgresSave, responseAddress, MethodPost, Some(url), rnd2, user2)
          == (after, Response(StatusConflict, first.result, ""))
  {
    var (after, first) := PostURL(rows, PostgresSave, responseAddress, MethodPost, Some(url), rnd1, user1);
    if first.status == StatusCreated {
      var code1 := GenerateShortURL(CodeLength, rnd1).value;
      var code2 := GenerateShortURL(CodeLength, rnd2).value;
      assert after == rows + [Row(user1, code1, url, false)];
      PostgresBackend.SaveURLDeduplicates(after, |rows|, code2, user2);
    }
  }

  /** A code posted to the volatile backend redirects to its URL. */
  lemma MemoryPostThenGet(urls: map<string, Attributes>, responseAddress: string, url: string, rnd: RandomRead, userID: string)
    requires Fills(rnd, CodeLength) && rnd.ReadOk? && url != ""
    ensures var (after, posted) := PostURL(urls, MemorySave, responseAddress, MethodPost, Some(url), rnd, userID);
      var code := GenerateShortURL(CodeLength, rnd).value;
      && posted == Response(StatusCreated, ShortAddress(responseAddress, code), "")
      && GetURL(after, MemoryLookup, MethodGet, "/" + code) == Response(StatusTemporaryRedirect, "", url)
  {
    var code := GenerateShortURL(CodeLength, rnd).value;
    assert ("/" + code)[1..] == code;
  }

  /** The volatile backend never deduplicates: the same URL posted twice gets two codes, both
      answered 201 and both redirecting to it. */
  lemma MemoryRepostCreates(urls: map<string, Attributes>, responseAddress: string, url: string,
                            rnd1: RandomRead, rnd2: RandomRead, userID: string)
    requires Fills(rnd1, CodeLength) && Fills(rnd2, CodeLength) && rnd1.ReadOk? && rnd2.ReadOk? && url != ""
    ensures var (after1, _) := PostURL(urls, MemorySave, responseAddress, MethodPost, Some(url), rnd1, userID);
      var (after2, second) := PostURL(after1, MemorySave, responseAddress, MethodPost, Some(url), rnd2, userID);
      var code1 := GenerateShortURL(CodeLength, rnd1).value;
      && second == Response(StatusCreated, ShortAddress(responseAddress, GenerateShortURL(CodeLength, rnd2).value), "")
      && GetURL(after2, MemoryLookup, MethodGet, "/" + code1) == Response(StatusTemporaryRedirect, "", url)
  {
    var code1 := GenerateShortURL(CodeLength, rnd1).value;
    assert ("/" + code1)[1..] == code1;
  }

  /** After its owner deletes a code in the relational backend, fetching it answers 410. */
  lemma PostgresDeletedIsGone(rows: seq<Row>, i: int, urlIDs: seq<string>)
    requires PostgresBackend.TableValid(rows) && 0 <= i < |rows|
    requires rows[i].shortURL != "" && rows[i].shortURL in urlIDs
    ensures GetURL(PostgresBackend.MarkDeleted(rows, rows[i].userID, urlIDs), PostgresLookup, MethodGet, "/" + rows[i].shortURL)
      == Status(StatusGone)
  {
    PostgresBackend.TombstoneBlocksResave(rows, i, urlIDs, "", "");
    assert ("/" + rows[i].shortURL)[1..] == rows[i].shortURL;
  }

  /** A batch on the volatile backend whose second record has no URL: 400, yet the first record
      stays saved and resolvable. */
  lemma MemoryBatchKeepsPrefix(urls: map<string, Attributes>, responseAddress: string,
                               first: AddNewURLRecord, second: AddNewURLRecord, entropy: seq<RandomRead>, userID: string)
    requires Supplied([first, second], entropy) && entropy[0].ReadOk?
    requires first.originalURL != "" && second.originalURL == ""
    ensures var o := RunBatch(urls, MemorySave, responseAddress, [first, second], entropy, userID);
      var code := GenerateShortURL(CodeLength, entropy[0]).value;
      && o.status == StatusBadRequest
      && MemoryLookup(o.state, code) == (first.originalURL, false, NoError)
  {
    assert [first, second][1..] == [second];
  }

  /** The same batch on the relational backend: the first insert reaches the transaction's copy,
      but the answer is 400 and the table is exactly as before. */
  lemma PostgresBatchRollsBack(rows: seq<Row>, responseAddress: string, first: AddNewURLRecord, second: AddNewURLRecord,
                               entropy: seq<RandomRead>, userID: string, commitFault: Error)
    requires Supplied([first, second], entropy) && entropy[0].ReadOk?
    requires first.originalURL != "" && second.originalURL == ""
    requires forall j | 0 <= j < |rows| ::
      rows[j].originalURL != first.originalURL && rows[j].shortURL != GenerateShortURL(CodeLength, entropy[0]).value
    ensures var code := GenerateShortURL(CodeLength, entropy[0]).value;
      RunBatch(rows, InTransaction(PostgresInsert), responseAddress, [first, second], entropy, userID)
        == BatchOutcome(rows + [Row(userID, code, first.originalURL, false)], StatusBadRequest, [])
    ensures TransactionalBatch(rows, PostgresInsert, responseAddress, [first, second], entropy, userID, NoError, commitFault)
      == BatchOutcome(rows, StatusBadRequest, [])
  {
    var code := GenerateShortURL(CodeLength, entropy[0]).value;
    var inserted := PostgresBackend.Insert(rows, userID, code, first.originalURL);
    assert inserted == (rows + [Row(userID, code, first.originalURL, false)], NoError);
    assert PostgresInsert(rows, code, first.originalURL, userID) == inserted;
    assert InTransaction(PostgresInsert)(rows, code, first.originalURL, userID) == (inserted.0, "", NoError);
    assert [first, second][1..] == [second];
  }

  /** A relational batch never breaks the table's unique indexes, committed or not. */
  lemma PostgresBatchKeepsTableValid(rows: seq<Row>, responseAddress: string, records: seq<AddNewURLRecord>,
                                     entropy: seq<RandomRead>, userID: string, beginFault: Error, commitFault: Error)
    requires PostgresBackend.TableValid(rows) && Supplied(records, entropy)
    ensures PostgresBackend.TableValid(
      TransactionalBatch(rows, PostgresInsert, responseAddress, records, entropy, userID, beginFault, commitFault).state)
  {
    RunBatchKeeps(PostgresBackend.TableValid, rows, InTransaction(PostgresInsert), responseAddress, records, entropy, userID);
  }
}
