/** The volatile backend of internal/storage/memory_storage.go: a map from short code to the
    two-slot value `[url, userID]`, owned by the instance. */
module MemoryBackend {
  import opened Wrappers
  import opened Models
  import opened Sql

  const NotImplemented: Error := Error("not implemented")

  /** Meaning of `SaveURL` on the map: put the entry, report no existing code and no error. */
  function Save(urls: map<string, Attributes>, shortURL: string, originalURL: string, userID: string)
    : (r: (map<string, Attributes>, string, Error))
    ensures r.0.Keys == urls.Keys + {shortURL}
    ensures r.0[shortURL] == Attributes(originalURL, userID)
    ensures forall k | k in urls && k != shortURL :: r.0[k] == urls[k]
    ensures r.1 == "" && r.2 == NoError
  {
    (urls[shortURL := Attributes(originalURL, userID)], "", NoError)
  }

  /** Meaning of `GetOriginalURL` on the map: slot 0 of the entry, never reported deleted. */
  function Lookup(urls: map<string, Attributes>, shortURL: string): (r: (string, bool, Error))
    ensures r.2 == NoError <==> shortURL in urls
    ensures !r.1
    ensures shortURL in urls ==> r.0 == urls[shortURL].url
    ensures shortURL !in urls ==> r == ("", false, Error("URL not found"))
  {
    if shortURL in urls then (urls[shortURL].url, false, NoError)
    else ("", false, Error("URL not found"))
  }

  /** The map after `SaveBatch(records)`, as written: record by record in input order, each code
      mapped to `[ShortURL, UserID]`, so slot 0 receives the short code and not the URL. */
  function ApplyBatch(urls: map<string, Attributes>, records: seq<AddNewURLRecord>)
    : map<string, Attributes>
    decreases |records|
  {
    if records == [] then urls
    else
      var last := records[|records| - 1];
      ApplyBatch(urls, records[..|records| - 1])[last.shortURL := Attributes(last.shortURL, last.userID)]
  }

  /** Each batch code ends up holding the last record with that code (with the code in its URL
      slot); codes outside the batch keep their old entry or stay absent. */
  lemma {:induction false} ApplyBatchAt(urls: map<string, Attributes>, records: seq<AddNewURLRecord>, code: string)
    ensures var m, j := ApplyBatch(urls, records), LastIndexOfCode(records, code);
      && (code in m <==> code in urls || j >= 0)
      && (j >= 0 ==> m[code] == Attributes(code, records[j].userID))
      && (j < 0 && code in urls ==> m[code] == urls[code])
    decreases |records|
  {
    if records != [] {
      ApplyBatchAt(urls, records[..|records| - 1], code);
    }
  }

  /** As written, a batch-saved code resolves to itself: the record's URL is lost. */
  lemma ApplyBatchLosesURL()
    ensures var records := [AddNewURLRecord("1", "abc", "https://example.com", "u1", false)];
      Lookup(ApplyBatch(map[], records), "abc") == ("abc", false, NoError)
  {
    var records := [AddNewURLRecord("1", "abc", "https://example.com", "u1", false)];
    assert records[..0] == [];
  }

  /** The evidently intended batch: each code mapped to `[OriginalURL, UserID]`, as `SaveURL`
      stores it. */
  function ApplyBatchIntended(urls: map<string, Attributes>, records: seq<AddNewURLRecord>)
    : map<string, Attributes>
    decreases |records|
  {
    if records == [] then urls
    else
      var last := records[|records| - 1];
      Save(ApplyBatchIntended(urls, records[..|records| - 1]), last.shortURL, last.originalURL, last.userID).0
  }

  /** With the intended batch, every batch code resolves to the URL of the last record carrying
      it; other codes resolve as before. */
  lemma {:induction false} ApplyBatchIntendedLookup(urls: map<string, Attributes>, records: seq<AddNewURLRecord>, code: string)
    ensures var j := LastIndexOfCode(records, code);
      && (j >= 0 ==> Lookup(ApplyBatchIntended(urls, records), code) == (records[j].originalURL, false, NoError))
      && (j < 0 ==> Lookup(ApplyBatchIntended(urls, records), code) == Lookup(urls, code))
    decreases |records|
  {
    if records != [] {
      ApplyBatchIntendedLookup(urls, records[..|records| - 1], code);
    }
  }

  /** The same URL saved under two codes yields two entries: this backend does not deduplicate. */
  lemma SaveDoesNotDeduplicate(urls: map<string, Attributes>, c1: string, c2: string, url: string, u1: string, u2: string)
    requires c1 != c2
    ensures var m := Save(Save(urls, c1, url, u1).0, c2, url, u2).0;
      Lookup(m, c1) == (url, false, NoError) && Lookup(m, c2) == (url, false, NoError)
  {
  }

  /** Re-saving a code keeps only the last write. */
  lemma SaveLastWriteWins(urls: map<string, Attributes>, code: string, url1: string, url2: string, u1: string, u2: string)
    ensures Save(Save(urls, code, url1, u1).0, code, url2, u2).0 == Save(urls, code, url2, u2).0
  {
  }

  class MemoryStorage {
    var urls: map<string, Attributes>
    const storageName: string := "memory storage"

    /** `NewMemoryStorage`; the source aliases the package-level `models.PairsOfURLs` map, here
        each instance owns a map that starts empty. */
    constructor ()
      ensures urls == map[]
    {
      urls := map[];
    }

    method SaveURL(shortURL: string, originalURL: string, userID: string) returns (existing: string, err: Error)
      modifies this
      ensures (urls, existing, err) == Save(old(urls), shortURL, originalURL, userID)
      ensures GetOriginalURL(shortURL) == (originalURL, false, NoError)
      ensures forall k | k != shortURL :: GetOriginalURL(k) == old(GetOriginalURL(k))
    {
      urls := urls[shortURL := Attributes(originalURL, userID)];
      existing, err := "", NoError;
    }

    function GetOriginalURL(shortURL: string): (r: (string, bool, Error))
      reads this
      ensures r.2 == NoError <==> shortURL in urls
      ensures !r.1
    {
      Lookup(urls, shortURL)
    }

    method Ping() returns (err: Error)
      ensures err == NoError
    {
      err := NoError;
    }

    function GetStorageName(): (r: (string, Error))
      ensures r == ("memory storage", NoError)
    {
      (storageName, NoError)
    }

    method SaveBatch(records: seq<AddNewURLRecord>) returns (err: Error)
      modifies this
      ensures urls == ApplyBatch(old(urls), records)
      ensures err == NoError
    {
      var i := 0;
      while i < |records|
        invariant 0 <= i <= |records|
        invariant urls == ApplyBatch(old(urls), records[..i])
      {
        var record := records[i];
        assert records[..i + 1][..i] == records[..i];
        urls := urls[record.shortURL := Attributes(record.shortURL, record.userID)];
        i := i + 1;
      }
      assert records[..i] == records;
      err := NoError;
    }

    method SaveBatchTransaction(tx: Tx?, shortURL: string, originalURL: string, userID: string) returns (err: Error)
      ensures err == NotImplemented
    {
      err := NotImplemented;
    }

    method GetAllUserURLs(userID: string) returns (pairs: seq<BasePairsOfURLsResponse>, err: Error)
      ensures pairs == [] && err == NotImplemented
    {
      pairs, err := [], NotImplemented;
    }

    method MarkURLsAsDeleted(userID: string, urlIDs: seq<string>) returns (err: Error)
      ensures err == NotImplemented
    {
      err := NotImplemented;
    }
  }
}
