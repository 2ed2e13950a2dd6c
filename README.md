# url-cutter: a verified model of the URL registry

This project models the URL-registry logic of the Go service `url-cutter`. It covers how short
codes are derived, stored, looked up, deduplicated, tombstoned and replayed. It proves a set of
properties about that logic in Dafny.

The modules follow the repository's files:

- `Base64Url` (base64url.dfy): the padded base64url encoding of section 5 of RFC 4648, as Go's
  `base64.URLEncoding` writes it, plus a decoder proved to invert it.
- `ShortCode` (shortcode.dfy): `generateShortURL` and its two copies `createShortURL`. The code is
  the first `length` characters of the encoding of `length` random bytes. The outcome of the
  random read is a parameter.
- `Decimal` (decimal.dfy): `strconv.Itoa` and `strconv.Atoi`. The log stamps records with the
  first and parses them back with the second.
- `Models` (models.dfy): the record shapes of internal/models/models.go.
- `MemoryBackend` (memory_storage.dfy): the volatile map backend, a class with a `map` field.
- `FileBackend` (file_storage.dfy): the logged backend. It is a class with the map, the log
  (a sequence of decoded lines), the file's existence and the `lastUUID` counter. It also holds
  the replay function that start-up runs.
- `Sql` (sql.dfy): a table row and a transaction (a private working copy of the table).
- `PostgresBackend` (postgres_storage.dfy): the relational backend. Each SQL statement is given
  its meaning over a sequence of rows. A class holds the table.
- `Handlers` (handlers.dfy): the status decisions of the HTTP handlers and the batch loop. The
  store is abstract: a state value plus the backend's operations as function parameters.
- `Wiring` (wiring.dfy): the handlers with the memory or the relational backend plugged in, and
  the end-to-end properties of each combination.
- `ShortenerMain` (shortener_main.dfy): the early server of cmd/shortener/main.go. It has a
  `"/"+code` map, a counter and a log file of its own.
- `ServerMain` (server_main.dfy): the earliest server of cmd/shortener/server/main.go. It has
  only the `"/"+code` map, plus the `http://` stripping of `run`.

I/O outcomes are parameters of the operations that see them:

- opening or appending to the log file (`openFault`, `fault`);
- one fault per record in a batch;
- the random read (`RandomRead`);
- `Begin` and `Commit` of a transaction (`beginFault`, `commitFault`);
- the decoded request body (`Option`, `None` when reading or decoding fails).

### Where the code departs from a usual shortener (the model follows the code)

- Memory and file `SaveURL` never deduplicate. Relational `SaveURL` returns the new code, not
  `""`, on success.
- The relational dedup target `ON CONFLICT (original_url)` is not scoped to live rows. A
  tombstoned row therefore still blocks saving its URL again and hands back the deleted code
  (`PostgresBackend.TombstoneBlocksResave`).
- Relational `GetOriginalURL` never fills the owner field of its result.
- Relational `GetAllUserURLs` also lists tombstoned rows (see Findings).
- The batch handler checks each record's URL as it reaches it. Earlier records are already
  saved on the map backends.
- File `SaveURL` bumps the counter even when the write then fails.
- In cmd/shortener/main.go a failed append only gets logged, so memory can run ahead of the log.
- Relational `GetOriginalURL` reports no error on database faults other than "no rows". That
  path is not modelled, since database faults are left out.

## Model

| member | source | states |
|---|---|---|
| Base64Url.EncodeSextet | internal/handlers/handlers.go:36 | every 6-bit value encodes to a URL-safe alphabet character, never `=` |
| Base64Url.DecodeSextet | internal/handlers/handlers.go:36 | decoding an alphabet character gives a 6-bit value that encodes back to it |
| Base64Url.Encode | internal/handlers/handlers.go:36 | the padded text has 4·⌈n/3⌉ characters; the first ⌈4n/3⌉ are URL-safe and not `=`, the rest are `=` |
| Base64Url.DecodeEncode | internal/handlers/handlers.go:36 | decoding the encoding of any bytes gives the bytes back |
| ShortCode.UnpaddedCoversLength | internal/handlers/handlers.go:36 | n ≤ ⌈4n/3⌉ ≤ 4·⌈n/3⌉, so the cut `[:n]` is in range and lies within the unpadded part |
| ShortCode.GenerateShortURL | internal/handlers/handlers.go:31-37 | a failed read gives its error and no code; otherwise the code has exactly `length` characters, all URL-safe and none `=` |
| ShortCode.CodeIsEncodingPrefix | internal/handlers/handlers.go:36 | the code is a prefix of a text that decodes to the random bytes |
| Decimal.NatToDigits | internal/storage/file_storage.go:37 | decimal digits with no leading zero whose value is the number |
| Decimal.Itoa | internal/storage/file_storage.go:37 | non-empty; starts with `-` exactly for negative numbers and with a digit otherwise |
| Decimal.Atoi | internal/storage/file_storage.go:79 | the empty text does not parse; an unsigned parse is non-negative |
| Decimal.AtoiItoa | internal/storage/file_storage.go:79 | parsing the decimal form of any integer gives it back, so the counter survives the log |
| Decimal.ItoaInjective | internal/storage/file_storage.go:37 | distinct counter values get distinct record IDs |
| Models.LastIndexOfCode | internal/storage/memory_storage.go:45-48 | the index of the last record carrying a code, or -1 when none does |
| MemoryBackend.Save | internal/storage/memory_storage.go:21-25 | the map gains exactly the entry `code → [url, user]`, other keys keep their values, and the result is `("", nil)` |
| MemoryBackend.Lookup | internal/storage/memory_storage.go:27-34 | no error iff the code is present, then slot 0 of its entry; absent gives `("", false, "URL not found")`; never deleted |
| MemoryBackend.SaveDoesNotDeduplicate | internal/storage/memory_storage.go:21-25 | the same URL saved under two codes resolves under both |
| MemoryBackend.SaveLastWriteWins | internal/storage/memory_storage.go:23 | re-saving a code keeps only the last write |
| MemoryBackend.ApplyBatchAt | internal/storage/memory_storage.go:44-50 | after a batch, each batch code holds the last record with that code, with the code itself in its URL slot; other codes are unchanged |
| MemoryBackend.ApplyBatchLosesURL | internal/storage/memory_storage.go:46 | a batch-saved code resolves to the code itself, not to the record's URL |
| MemoryBackend.ApplyBatchIntendedLookup | internal/storage/memory_storage.go:44-50 | with the URL stored, each batch code resolves to the URL of its last record; other codes resolve as before |
| MemoryBackend.MemoryStorage.constructor | internal/storage/memory_storage.go:14-19 | the instance starts with an empty map of its own |
| MemoryBackend.MemoryStorage.SaveURL | internal/storage/memory_storage.go:21-25 | the new map is `Save` of the old one; the saved code resolves to `(url, false, nil)`; every other code resolves as before |
| MemoryBackend.MemoryStorage.GetOriginalURL | internal/storage/memory_storage.go:27-34 | no error iff the code is present; never deleted |
| MemoryBackend.MemoryStorage.Ping | internal/storage/memory_storage.go:36-38 | always nil |
| MemoryBackend.MemoryStorage.GetStorageName | internal/storage/memory_storage.go:40-42 | always `("memory storage", nil)` |
| MemoryBackend.MemoryStorage.SaveBatch | internal/storage/memory_storage.go:44-50 | the loop leaves the map that the batch as written gives; the result is nil |
| MemoryBackend.MemoryStorage.SaveBatchTransaction | internal/storage/memory_storage.go:52-54 | "not implemented"; the map is untouched (no modifies) |
| MemoryBackend.MemoryStorage.GetAllUserURLs | internal/storage/memory_storage.go:56-58 | no pairs and "not implemented" |
| MemoryBackend.MemoryStorage.MarkURLsAsDeleted | internal/storage/memory_storage.go:60-62 | "not implemented"; the map is untouched |
| FileBackend.ReplayOkIffWellFormed | internal/storage/file_storage.go:69-85 | replay ends with no error exactly when every line decodes |
| FileBackend.ReplaySnoc | internal/storage/file_storage.go:69-85 | replaying one more record = replaying the log, then that record's entry and parsed ID |
| FileBackend.ReplayAt | internal/storage/file_storage.go:77-78 | after replay each code holds `[OriginalURL, UserID]` of the last record carrying it; other codes keep their prior entry |
| FileBackend.ReplayCounter | internal/storage/file_storage.go:79 | after replay the counter is the parsed ID of the last record (0 if it does not parse) |
| FileBackend.ReplayStopsAtMalformed | internal/storage/file_storage.go:72-76 | a line that fails to decode aborts with its error; what was replayed before it stays |
| FileBackend.CounterContinues | internal/storage/file_storage.go:33-37 | a log ending in a record stamped `Itoa(k)` restarts the counter at k, so numbering continues at k+1 |
| FileBackend.FirstFault | internal/storage/file_storage.go:110-114 | the index of the first failed write: every earlier write succeeded |
| FileBackend.FirstFaultAt | internal/storage/file_storage.go:110-114 | the first failure is at i when all writes before i succeed and the one at i fails |
| FileBackend.FileStorage.constructor | internal/storage/file_storage.go:24-28 | empty map, counter at zero, log as found on disk |
| FileBackend.FileStorage.LoadURLsFromFile | internal/storage/file_storage.go:59-86 | no file: nil, nothing changes; open error: returned, nothing changes; otherwise map, counter and error are those of `Replay` |
| FileBackend.FileStorage.SaveToFile | internal/storage/file_storage.go:88-103 | a failed write returns its error and changes nothing; otherwise exactly one line is appended and then the entry is set; keeps the map mirroring the log |
| FileBackend.FileStorage.SaveURL | internal/storage/file_storage.go:33-44 | the counter goes up by exactly 1 even when the write fails; the record is stamped `Itoa` of the new value; the result is `""` and the write's error; a failed write leaves the map, log and file existence as they were; mirroring is kept |
| FileBackend.FileStorage.GetOriginalURL | internal/storage/file_storage.go:46-53 | absent: "URL not found"; present: `(attributes[0], false, nil)` |
| FileBackend.FileStorage.Ping | internal/storage/file_storage.go:55-57 | always nil |
| FileBackend.FileStorage.GetStorageName | internal/storage/file_storage.go:105-107 | always `("file storage", nil)` |
| FileBackend.FileStorage.SaveBatch | internal/storage/file_storage.go:109-116 | the records before the first failed write are appended and mapped in order; that write's error is returned; the file exists afterwards iff it did before or a record was written; the counter is untouched |
| FileBackend.FileStorage.SaveBatchTransaction | internal/storage/file_storage.go:118-120 | "not implemented"; nothing changes |
| FileBackend.FileStorage.GetAllUserURLs | internal/storage/file_storage.go:122-124 | no pairs and "not implemented" |
| FileBackend.FileStorage.MarkURLsAsDeleted | internal/storage/file_storage.go:126-128 | "not implemented"; nothing changes |
| FileBackend.NewFileStorage | internal/storage/file_storage.go:23-31 | the fresh instance holds the replay of the log; with no error, its map and counter mirror the log |
| FileBackend.Restart | internal/storage/file_storage.go:23-31 | replay fidelity: an instance over the same log resolves every code as before, and keeps the counter when the counter mirrored the log |
| Sql.Tx.Begin | internal/handlers/handlers.go:283 | the transaction starts from the current table |
| PostgresBackend.IndexOf | internal/storage/postgres_storage.go:59 | the first row whose column holds the key; -1 exactly when no row does |
| PostgresBackend.EvolvesTransitive | internal/storage/postgres_storage.go:23-41 | the allowed table evolution (append, keep identity, never clear a tombstone) composes |
| PostgresBackend.AppendKeepsValid | internal/storage/postgres_storage.go:25-27 | appending a row with a new code and a new URL keeps both unique indexes |
| PostgresBackend.Insert | internal/storage/postgres_storage.go:49-51 | succeeds iff no row has the URL or the code, then appends one live row; otherwise a unique violation with the table unchanged; keeps the indexes |
| PostgresBackend.SelectShortByOriginal | internal/storage/postgres_storage.go:74-87 | `(code of a row with the URL, "conflict")` iff such a row exists; otherwise `("", nil)` |
| PostgresBackend.SaveOutcome | internal/storage/postgres_storage.go:23-41 | a URL in the table: nothing inserted, the existing code and "conflict"; a new URL and code: one live row and `(code, nil)`; keeps the indexes; only evolves |
| PostgresBackend.SelectOriginal | internal/storage/postgres_storage.go:54-72 | an absent code gives `("", false, "not found")`; a present one `(original_url, is_deleted, nil)` |
| PostgresBackend.MarkDeleted | internal/storage/postgres_storage.go:130-138 | a row becomes deleted iff it was already or its owner and code match; identities and length unchanged |
| PostgresBackend.MarkDeletedEvolves | internal/storage/postgres_storage.go:131-137 | tombstoning only evolves the table (no flag is reset) and keeps the indexes |
| PostgresBackend.MarkDeletedIsolatesOwners | internal/storage/postgres_storage.go:134 | rows of other owners are untouched, even when their code is listed |
| PostgresBackend.OwnedPairsExact | internal/storage/postgres_storage.go:101-128 | the listing holds a pair iff some row of that owner carries it, tombstoned rows included |
| PostgresBackend.OwnedPairsListsDeleted | internal/storage/postgres_storage.go:102 | a code deleted by its owner is still listed |
| PostgresBackend.LiveOwnedPairsExact | internal/storage/postgres_storage.go:101-128 | the intended listing holds a pair iff a live row of that owner carries it |
| PostgresBackend.SaveConflictDeleteScenario | internal/storage/postgres_storage.go:23-72 | save, conflicting re-save, lookup, delete, lookup: the code, then "conflict" with it, then the URL live, then the URL flagged deleted |
| PostgresBackend.TombstoneSurvivesSaveThenDelete | internal/storage/postgres_storage.go:23-41 | a code reported deleted is still reported deleted, with the same URL, after any save followed by any deletion |
| PostgresBackend.DeletedStaysDeleted | internal/storage/postgres_storage.go:130-138 | once a lookup reports a code deleted, it stays deleted, with the same URL, in every later table |
| PostgresBackend.SaveURLDeduplicates | internal/storage/postgres_storage.go:27 | saving a URL already in a valid table returns its one stored code with "conflict" and changes nothing |
| PostgresBackend.TombstoneBlocksResave | internal/storage/postgres_storage.go:27 | after the owner deletes a code, saving its URL again by anyone returns the deleted code, whose lookup reports it deleted |
| PostgresBackend.PostgresStorage.constructor | internal/storage/postgres_storage.go:16-21 | the instance over a table that meets its constraints |
| PostgresBackend.PostgresStorage.SaveURL | internal/storage/postgres_storage.go:23-41 | table, code and error are those of `SaveOutcome`; the indexes hold; the table only evolves |
| PostgresBackend.PostgresStorage.SaveBatchTransaction | internal/storage/postgres_storage.go:43-52 | a nil transaction gives "transaction is nil"; otherwise the transaction's copy takes a plain insert |
| PostgresBackend.PostgresStorage.GetOriginalURL | internal/storage/postgres_storage.go:54-72 | no error iff some row carries the code |
| PostgresBackend.PostgresStorage.GetShortURLByOriginal | internal/storage/postgres_storage.go:74-87 | "conflict" iff some row carries the URL |
| PostgresBackend.PostgresStorage.GetStorageName | internal/storage/postgres_storage.go:93-95 | always `("postgres storage", nil)` |
| PostgresBackend.PostgresStorage.SaveBatch | internal/storage/postgres_storage.go:97-99 | always "not implemented" |
| PostgresBackend.PostgresStorage.GetAllUserURLs | internal/storage/postgres_storage.go:101-128 | the append loop returns exactly the owner's pairs, tombstoned ones included, with no error |
| PostgresBackend.PostgresStorage.MarkURLsAsDeleted | internal/storage/postgres_storage.go:130-138 | the table is `MarkDeleted` of the old one; the indexes hold; the table only evolves |
| Handlers.Shorten | internal/handlers/handlers.go:84-108 | a failed read gives 400, store untouched; save "conflict" gives 409 with the existing code; another error 500; success 201 with the new code |
| Handlers.PostURL | internal/handlers/handlers.go:58-109 | non-POST, unreadable or empty body gives 400 without calling the store; otherwise the shortening outcome |
| Handlers.PostJSON | internal/handlers/handlers.go:111-187 | non-POST, undecodable request or empty `url` gives 400 without calling the store; otherwise the shortening outcome |
| Handlers.GetURL | internal/handlers/handlers.go:189-234 | 307 to the URL iff GET with a non-empty code found live; 410 iff found deleted; otherwise 400, including a store error |
| Handlers.PrependPrepend | internal/handlers/handlers.go:311-314 | appending responses one by one is appending them all at once |
| Handlers.RunBatchSplit | internal/handlers/handlers.go:323-347 | partial commit: the first part of a batch runs to its end or failure and keeps its effects; the rest runs only after it succeeds |
| Handlers.RunBatchResponses | internal/handlers/handlers.go:311-314 | a 201 batch pairs each correlation id, in input order, with its record's code; every record had a URL |
| Handlers.TransactionalBatch | internal/handlers/handlers.go:282-321 | anything but 201 leaves the store exactly as it was; 201 iff begin, every insert and commit succeed |
| Handlers.SaveRecords | internal/handlers/handlers.go:323-347 | the imperative loop computes exactly the per-record batch function |
| Handlers.PostBatchURL | internal/handlers/handlers.go:251-361 | an undecodable or empty batch gives 400 with the store untouched; the storage name picks the transactional or the sequential path |
| Wiring.RunBatchKeeps | internal/handlers/handlers.go:323-347 | a batch keeps any property that each save keeps, whether it completes or stops early |
| Wiring.PostgresRepostConflicts | internal/handlers/handlers.go:90-96 | with the relational backend, a second POST of a URL answers 409 with the first code and leaves the table alone |
| Wiring.MemoryPostThenGet | internal/handlers/handlers.go:209-233 | with the memory backend, a posted code redirects to its URL |
| Wiring.MemoryRepostCreates | internal/storage/memory_storage.go:21-25 | with the memory backend, the same URL posted twice gets 201 twice, and the first code still redirects |
| Wiring.PostgresDeletedIsGone | internal/handlers/handlers.go:223-226 | after the owner deletes a code, GET answers 410 |
| Wiring.MemoryBatchKeepsPrefix | internal/handlers/handlers.go:323-328 | on the memory backend, a batch whose second URL is empty answers 400, yet the first record stays resolvable |
| Wiring.PostgresBatchRollsBack | internal/handlers/handlers.go:289-296 | the same batch on the relational backend puts the first row in the transaction's copy, answers 400 and leaves the table as it was |
| Wiring.PostgresBatchKeepsTableValid | internal/handlers/handlers.go:282-321 | a relational batch never breaks the unique indexes |
| ShortenerMain.LoadKeepsRooted | cmd/shortener/main.go:64 | loading keeps every key rooted at `/` |
| ShortenerMain.LoadOkIffWellFormed | cmd/shortener/main.go:56-71 | loading ends with no error exactly when every line decodes |
| ShortenerMain.LoadSnoc | cmd/shortener/main.go:56-69 | loading one more record = loading the log, then its `"/"+code` entry and parsed `UUID` |
| ShortenerMain.LoadMisses | cmd/shortener/main.go:64 | a code no record carries is exactly as absent after loading as before |
| ShortenerMain.FailedAppendIsLostOnRestart | cmd/shortener/main.go:119-121 | a code whose append failed, and that no earlier record carries, is not brought back by loading the log |
| ShortenerMain.Shortener.constructor | cmd/shortener/main.go:21-29 | empty map, counter at zero, the file as found |
| ShortenerMain.Shortener.LoadURLsFromFile | cmd/shortener/main.go:46-72 | no file: nil, nothing changes; open error: returned; otherwise map, counter and error are those of `Load` |
| ShortenerMain.Shortener.AddURLToFile | cmd/shortener/main.go:31-44 | a failed open or encode leaves the file alone; otherwise exactly one line is appended |
| ShortenerMain.Shortener.Shorten | cmd/shortener/main.go:151-171 | a failed read gives 400, nothing changes; otherwise `"/"+code → url`, counter +1, the record stamped `Itoa` of it appended unless the append fails (a failed append leaves the file's existence unchanged), 201 either way |
| ShortenerMain.Shortener.PostURLHandler | cmd/shortener/main.go:137-172 | non-POST or empty body gives 400, nothing changes; a failed random read gives 400, nothing changes; otherwise `"/"+code → body`, counter +1, the record appended unless the write fails, and 201; mirroring kept on a successful append |
| ShortenerMain.Shortener.PostJSONHandler | cmd/shortener/main.go:86-135 | non-POST, undecodable request or empty `url` gives 400, nothing changes; a failed random read gives 400, nothing changes; otherwise `"/"+code → url`, counter +1, the record appended unless the write fails, and 201 |
| ShortenerMain.Shortener.GetURLHandler | cmd/shortener/main.go:174-195 | 307 to the stored URL iff GET of a stored non-empty path; otherwise 400 |
| ShortenerMain.Restart | cmd/shortener/main.go:46-72 | round trip: a fresh process over the log loads the same map and counter, so every path answers as before |
| ServerMain.Server.constructor | cmd/shortener/server/main.go:15 | the map starts empty |
| ServerMain.Server.PostURLHandler | cmd/shortener/server/main.go:29-53 | non-POST, empty body or failed read gives 400 with the map unchanged; otherwise `"/"+code → body` and 201 |
| ServerMain.Server.GetURLHandler | cmd/shortener/server/main.go:55-76 | 307 to the stored URL iff GET of a stored non-empty path; otherwise 400 |
| ServerMain.PostThenGet | cmd/shortener/server/main.go:49-75 | a POST then a GET of the returned path redirects to the posted URL |
| ServerMain.RemoveAll | cmd/shortener/server/main.go:87 | removing occurrences never lengthens the text |
| ServerMain.OccursInTail | cmd/shortener/server/main.go:87 | when the text does not start with the pattern, its occurrences are those of its tail |
| ServerMain.RemoveAllShrinks | cmd/shortener/server/main.go:87 | an occurrence makes the result strictly shorter |
| ServerMain.RemoveAllUnchanged | cmd/shortener/server/main.go:87 | the text is unchanged iff the pattern does not occur |
| ServerMain.Host | cmd/shortener/server/main.go:87 | the host is no longer than the address |
| ServerMain.HostStripsScheme | cmd/shortener/server/main.go:87 | `"http://"+h` becomes `h`, and `h` stays `h`, when `h` holds no `http://` |
| ServerMain.HostOfDefaultAddress | cmd/shortener/server/main.go:87 | `"http://localhost:8080"` becomes `"localhost:8080"` |

## Left out

- The HTTP transport: response writing, headers, JSON encoding of responses, the router, gzip,
  request logging and `ListenAndServe`. Handlers return a status, the address they send and the
  redirect target.
- Authentication (internal/auth/auth.go): the user ID is an opaque input. Cookie failures that
  write an error and carry on, and the final `SetAuthCookie` failure (500), are not modelled.
- Randomness: `rand.Read` is a `RandomRead` parameter. Nothing is claimed about code uniqueness.
- JSON decoding of the log and of requests: a log is a sequence of decoded lines or undecodable
  lines; a request body is an `Option`.
- The database driver: `Ping`, `rows.Close`, `rows.Err`, scan errors and any database fault
  other than "no rows" or a unique violation. `PostgresBackend.PostgresStorage` has no `Ping`.
- The uniqueness constraints of the `urls` table come from a migration that is not part of this
  model. The model takes unique indexes on `short_url` and on `original_url`, with
  `is_deleted` defaulting to false.
- The file path: both file-based stores read the configured path, not their `filePath` field.
  One log per instance is modelled.
- The shared package-level map `models.PairsOfURLs` and the package-level `lastUUID`: each
  backend instance owns its own map and counter.
- The `Storage` interface of internal/storage/storage.go matches no backend. Each backend is
  modelled at its own signatures.
- `GetAllUserURLsHandler`, `DeleteUserURLsHandler` (a fire-and-forget goroutine) and
  `PingDBHandler` are plumbing or concurrency. The two listener goroutines of the earliest
  server are left out too.
- Decimal.Atoi: the 64-bit range check of `strconv.Atoi` is not modelled; integers are unbounded.
- FileBackend.FileStorage.SaveURL: the counter does not wrap at 2^63; integers are unbounded.
- Handlers.GetURL: requires a non-empty request path, since Go's `Path[1:]` would panic on one.
  A server always supplies at least `/`.
- PostgresBackend.SelectOriginal: `QueryRow` picks some matching row; the model picks the first.
- PostgresBackend.PostgresStorage.GetAllUserURLs: the query has no `ORDER BY`, so the database may return the rows in any order (an `UPDATE` also moves a row's tuple); the model fixes one order, the table's append order. Only membership and multiplicity are meant. The same holds for `PostgresBackend.OwnedPairs` and `PostgresBackend.LiveOwnedPairs`.
  With the unique index on `short_url` this is the only one.

## Findings

| source | as written | input that shows it | evidently intended | confidence | as-written member | corrected member |
|---|---|---|---|---|---|---|
| internal/storage/memory_storage.go:46 | batch saving stores `[ShortURL, UserID]`, so slot 0 holds the code | one record `("1", "abc", "https://example.com", "u1")` into an empty map; `GetOriginalURL("abc")` gives `"abc"` | store `[OriginalURL, UserID]`, as `SaveURL` and the file backend do | high, not executed | MemoryBackend.ApplyBatchLosesURL | MemoryBackend.ApplyBatchIntendedLookup |
| internal/storage/postgres_storage.go:102 | the owner listing selects every row of the owner, tombstoned rows included | row `("u1", "abc12345", "https://example.com/a")`, then `MarkURLsAsDeleted("u1", ["abc12345"])`; the listing still shows it | list only rows with `is_deleted = false` | medium, not executed | PostgresBackend.OwnedPairsListsDeleted | PostgresBackend.LiveOwnedPairsExact |

The class methods `MemoryBackend.MemoryStorage.SaveBatch` and
`PostgresBackend.PostgresStorage.GetAllUserURLs` model the code as written. No other member uses
either operation.
