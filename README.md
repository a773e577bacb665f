# opensea-monitor, modelled in Dafny

opensea-monitor watches an NFT marketplace for activity on a list of
tracked projects. It does two jobs.

- **The event monitor** (`opensea/opensea.go`). Each pass reads a checkpoint
  from the configuration collection. It asks the marketplace for the events
  between that checkpoint (or a day ago, when there is none) and now. It
  keeps the events whose contract address, in checksum form, belongs to a
  stored project, and turns each one into a `Record`. It appends the
  records to the event collection. When all of that succeeded, it moves the
  checkpoint to the start of the pass.
- **The collection ranking job** (`opensea/collection.go`). It pages through
  the marketplace's collection list, 300 at a time, until a short page, an
  error or cancellation. Each collection becomes an `Item`. The items that
  have a single contract and a seven-day volume of at least 100 are upserted
  into the item store, keyed by contract address.

An event becomes a record through `toRecord` (`opensea/utils.go`):

- the event tag picks a label and the price field to show;
- the sender is shown as "username(short address)";
- the date is rendered as local wall-clock time;
- the price is printed in whole tokens. It is divided by 10^decimals with
  the decimal library's division, which keeps 16 fractional digits and
  rounds half away from zero. It is then printed with trailing zeros
  dropped.

The model has one module per concern.

- `Common`: `Option`, `Result` and the collaborators' `Error`, which has
  the store's "no documents" sentinel.
- `Response` and `Record`: the payload and stored entities. They cover
  `response.go` and `record.go`.
- `Externals`: library functions passed in as function values. These are
  address shortening, the EIP-55 checksum form, decimal parsing, time
  parsing and local time formatting.
- `Decimal`: the division and printing of arbitrary-precision decimals that
  `toEther` relies on. This is modelled concretely, with `int32` truncation
  of the token's decimals.
- `Utils`: `toName`, `toBeijingTime`, `toEther` and `toRecord` as pure
  functions.
- `OpenSea`: a class `OpenSea` whose fields are the configuration, project
  and event collections. Its methods mirror `loadLastTime`, `saveLastTime`,
  `loadProjects`, `requestOpenSea`, `saveEvent`, `doWork` and `Monitor`.
  `LoadLastTime`, `SaveLastTime` and `SaveEvent` state their effect on the
  store directly. The other methods are proved against a specification
  function:
  - `LoadProjects`: `IndexProjects`, the project map;
  - `RequestOpenSea`: `KeptRecords`, the filter;
  - `DoWork`: `Pass`, one pass;
  - `Monitor`: `Run`, a sequence of passes.

  The marketplace feed, the clock and the store's failures are parameters
  of each pass (`Tick`, `Faults`). Instants are integers counting
  nanoseconds since the Unix epoch. The store keeps milliseconds.
- `Collection`: a class `Collection` whose field is the item store. Its
  methods mirror `RetrieveCollections` (the mapping part), `saveCollections`
  and `UpdateAll`. They are proved against `Items`, `Upserted` and
  `Paginate`. Each iteration of the paging loop is a `Round`: either
  cancellation, or the reply to the page request together with the set of
  upserts that fail.

## Model

| member | source | states |
|---|---|---|
| Response.Account.String | opensea/response.go:76-83 | an account with a username shows as "username(short address)", one without as the short address alone |
| Response.EventTypesDistinct | opensea/response.go:42-49 | the six event tags are pairwise distinct, so at most one case of the tag switch applies |
| Decimal.Int32 | opensea/utils.go:75 | `int32(decimals)` lies in the 32-bit range and is congruent to the input modulo 2^32 |
| Decimal.RoundHalfAway | opensea/utils.go:80 | the rounded quotient is within half a unit of the exact one, a tie goes away from zero, and the sign is kept |
| Decimal.QuotientByPow10 | opensea/utils.go:80 | the quotient by 10^e, kept to 16 fractional digits, is exact when it fits and otherwise within half a unit in the last place |
| Decimal.Format | opensea/utils.go:80 | the decimal q*10^-k prints with only digits, '.' and '-', and with a leading '-' exactly when q is negative |
| Decimal.ToString | opensea/utils.go:80 | the printed amount holds only digits, '.' and '-', and starts with '-' exactly when it is negative |
| Decimal.FormatDenotes | opensea/utils.go:80 | an amount whose magnitude is a*10^k + b prints as the sign, the digits of a, and b's k digits with trailing zeros dropped (no point when none remain) |
| Decimal.WholeAmount | opensea/utils.go:80 | a whole number of tokens prints as its plain digits with no point |
| Utils.ToName | opensea/utils.go:52-59 | a sender with a username is named "username(short address)", one without by the short address |
| Utils.NameIsAccountString | opensea/utils.go:52-59 | `toName` and `Account.String` agree on every account |
| Utils.NameIgnoresProfile | opensea/utils.go:52-59 | the name depends only on the username and the address |
| Utils.ToBeijingTime | opensea/utils.go:62-72 | a date that does not parse is returned verbatim; otherwise it is the parsed instant's local time |
| Utils.ToEther | opensea/utils.go:74-82 | unparsable text is kept verbatim; otherwise the result is the rounded quotient by 10^int32(decimals), printed, then one space and the symbol, with no space inside the amount |
| Utils.ToEtherExact | opensea/utils.go:74-82 | when the quotient needs at most 16 fractional digits, the price prints exactly as integer part, trimmed fraction and symbol |
| Utils.ToEtherExample | opensea/utils.go:74-82 | 2500000000000000000 of an 18-decimal token with symbol ETH prints as "2.5 ETH" |
| Utils.ToRecord | opensea/utils.go:11-50 | the copied fields; for each tag, its label and the price field it reads; a transfer from the zero address is a Mint; an unknown tag is kept as the event with no price |
| Utils.MintAndTransferCarryNoPrice | opensea/utils.go:22-29 | a record labelled Mint or Transfer never has a price |
| Utils.TagDecidesOnlyEventAndPrice | opensea/utils.go:22-47 | changing the tag changes nothing in the record but its event and price |
| OpenSea.IndexProjects | opensea/opensea.go:239-242 | the map keeps its old keys and gains the checksum address of every stored project (the converse, that no other key changes, is IndexProjectsUntouched) |
| OpenSea.TrackedProjects | opensea/opensea.go:205-206 | a failed load, whose error is discarded, leaves the map empty; otherwise every stored project's checksum address is a key; every project sits under its own address |
| OpenSea.WindowStart | opensea/opensea.go:132-136 | with a checkpoint, the window starts on a whole millisecond that stores back as the checkpoint's value; without one, it starts a day before now |
| OpenSea.KeptRecords | opensea/opensea.go:207-213 | the filter produces no more records than there are events |
| OpenSea.Pass | opensea/opensea.go:123-147 | a pass never changes the projects and only appends events; a failed pass leaves the checkpoint alone; a successful one sets it to the pass's start, to the millisecond |
| OpenSea.Run | opensea/opensea.go:107-121 | a sequence of passes, each meeting its own sender condition on the store the earlier ones left, keeps the projects and only extends the events |
| OpenSea.OpenSea.LoadLastTime | opensea/opensea.go:149-163 | a stored checkpoint is returned in nanoseconds; its absence gives no checkpoint and no error; any other failure is returned |
| OpenSea.OpenSea.SaveLastTime | opensea/opensea.go:165-186 | on success the checkpoint is upserted with `now` to the millisecond and the server time; on failure nothing changes and the error is returned |
| OpenSea.OpenSea.LoadProjects | opensea/opensea.go:226-244 | "no documents" is success with the map unchanged; another failure is returned with the map unchanged; otherwise every project is added under its checksum address |
| OpenSea.OpenSea.RequestOpenSea | opensea/opensea.go:188-215 | a failed fetch returns its error and no records; otherwise the records are exactly those kept from the reply, in feed order |
| OpenSea.OpenSea.SaveEvent | opensea/opensea.go:217-224 | no records means no insert and no error; otherwise the records are appended, or the first `count` of them before the failure that is returned |
| OpenSea.OpenSea.DoWork | opensea/opensea.go:123-147 | the collections and error after the method are exactly those of `Pass` on the collections before |
| OpenSea.OpenSea.Monitor | opensea/opensea.go:107-121 | after one pass per tick the collections are those of `Run`, a failed pass not stopping the next |
| OpenSea.IndexProjectsLastWins | opensea/opensea.go:239-242 | the last stored project with a given checksum address is the one kept under it, with its address rewritten to that form |
| OpenSea.IndexProjectsUntouched | opensea/opensea.go:239-242 | a key that no project's address maps to keeps its entry or its absence |
| OpenSea.IndexProjectsNormalised | opensea/opensea.go:239-242 | every project in the map sits under its own address |
| OpenSea.KeptRecordsAppend | opensea/opensea.go:207-213 | filtering distributes over concatenation, so the records keep the feed's order |
| OpenSea.KeptRecordsStep | opensea/opensea.go:208-213 | one more event adds its record exactly when its contract is tracked |
| OpenSea.KeptRecordsSingle | opensea/opensea.go:208-213 | a single event gives its record when its contract is tracked and nothing otherwise |
| OpenSea.KeptRecordsComplete | opensea/opensea.go:208-213 | the record of every event of a tracked contract is kept |
| OpenSea.KeptRecordsSound | opensea/opensea.go:208-213 | every kept record comes from an event of a tracked contract |
| OpenSea.NoProjectsNoRecords | opensea/opensea.go:205-206 | with an empty project map, for instance after a failed load, nothing is kept |
| OpenSea.FailedLoadKeepsNothing | opensea/opensea.go:205-213 | when the project load fails, the pass reads no sender whatever the reply holds, and it writes no event |
| OpenSea.ReadFailureChangesNothing | opensea/opensea.go:126-130 | a failure to read the checkpoint leaves every collection unchanged and is returned |
| OpenSea.PassWindow | opensea/opensea.go:131-142 | the window runs from the checkpoint, or a day before now, to now; a failed fetch changes nothing; the events written are a prefix of the kept records, and all of them when the pass succeeds |
| OpenSea.PassSucceeds | opensea/opensea.go:123-147 | a pass succeeds exactly when the checkpoint read, the fetch, the insert (if there was anything to insert) and the checkpoint write all succeed |
| OpenSea.CheckpointKeepsSecond | opensea/opensea.go:165-186 | storing an instant to the millisecond loses less than a millisecond and keeps its Unix second |
| OpenSea.NextWindowFollows | opensea/opensea.go:131-145 | after a successful pass, the next window starts within a millisecond before the previous end and in the same second, so no gap is left |
| OpenSea.RunCheckpoint | opensea/opensea.go:107-121 | over any number of passes the checkpoint is never removed, and it holds its old value or the start of one of the passes |
| Collection.ToItem | opensea/collection.go:132-144 | an item keeps the name and statistics; its address is that of the only contract, or empty when there are none or several |
| Collection.Items | opensea/collection.go:131-146 | one item per collection, in page order |
| Collection.Paginate | opensea/collection.go:69-96 | the offsets requested so far are a prefix of all offsets requested |
| Collection.Upserted | opensea/collection.go:152-165 | the store keeps its old keys, and every entry is either the old one or a kept item stored under its own address |
| Collection.FirstStop | opensea/collection.go:75-94 | the loop ends at the first round that is a cancellation, an error or a short page |
| Collection.Collection.RetrieveCollections | opensea/collection.go:131-146 | a failed request returns its error; otherwise there is one item per collection, with its name, statistics and only contract's address |
| Collection.Collection.SaveCollections | opensea/collection.go:149-168 | always succeeds; the store becomes the old one with each kept, successfully upserted item written under its address, in order |
| Collection.Collection.UpdateAll | opensea/collection.go:69-96 | the error, the offsets requested and the final store are those of `Paginate` from offset 0 |
| Collection.UpsertedUntouched | opensea/collection.go:152-165 | an address that no kept, successful upsert writes keeps its entry or its absence, so nothing is stored under the empty address |
| Collection.UpsertedLastWins | opensea/collection.go:152-165 | the last kept, successful item with a given address is the one stored under it |
| Collection.KeptHasSingleContract | opensea/collection.go:137-154 | a stored item's address is the non-empty address of its collection's only contract |
| Collection.OffsetsFrom | opensea/collection.go:72-93 | from any point of the loop, each offset requested is the starting offset plus the sizes of the pages before it |
| Collection.OffsetsArePrefixSums | opensea/collection.go:72-93 | the k-th offset requested is the number of collections on the first k pages |
| Collection.StopsAtFirstStop | opensea/collection.go:75-94 | one page is requested per round up to the stopping round, including it unless it was a cancellation; only an error round returns an error |
| Collection.ThreePages | opensea/collection.go:72-93 | pages of 300, 300 and 57 give requests at offsets 0, 300 and 600, end at offset 657, and return no error |

## Left out

- HTTP requests and JSON decoding are left out. A reply is given as a
  `Result`: the event feed as a function of the window's bounds in Unix
  seconds, each collection page as a `Round`.
- MongoDB connections are left out, and so are `Init`, `Close`, `initIndex`
  and the TTL index on the event collection. Every store call is a field of
  `Faults`, or of `Round`, that says whether it fails.
- Monitor: the interval timer and context cancellation are replaced by a
  sequence of ticks, one per pass.
- Logging is left out: the `Sugar` calls and the log line for a collection
  with several contracts.
- `convert.ShortAddress`, `common.HexToAddress(..).Hex()`,
  `decimal.NewFromString`, `time.Parse` and `Local().Format` are uninterpreted
  functions in `Externals.Library`. They depend on code that is not part of
  this model.
- ToBeijingTime: the parsed branch renders the time through the library
  oracle. It therefore depends on the process's zone, as the code does.
- RawStat keeps only whether the seven-day volume is below 100. The other
  floating-point statistics are carried but never read.
- ToRecord: `time.Now()` is called for each record. It is modelled as one
  `createdAt` instant per pass.
- ToRecord: the sender must be present (`fromAccount.Some?`), because the
  code dereferences it unchecked and would panic on an event without one.
  - RequestOpenSea, DoWork and Pass carry the matching precondition, and
    only for the events a pass converts. When the checkpoint read fails,
    no condition applies. Otherwise every event in the reply to the
    pass's own window whose contract is in the project map actually
    loaded must name its sender. After a failed project load that map is
    empty.
  - Run, Monitor and RunCheckpoint require the same of each pass in turn
    (`RunConvertible`), each on the store the earlier passes left.
  - The panic itself is not modelled.
- ToRecord: utils.go:17 passes the pointer `ae.FromAccount` to `toName`,
  whose parameter is an `Account` value, so the code does not type-check as
  written. The model names the account the pointer refers to.
- ToEther: a quotient is not modelled when its exponent leaves the 32-bit
  range. The decimal library computes `exponent - int32(decimals) + 16` in
  32 bits and panics or wraps when that overflows. The model's exponent is
  an unbounded integer, so there it returns the exact quotient.
- UpdateAll: requires a round that ends the loop. A run the marketplace
  never ends, with full pages forever, is not modelled.
- UpdateAll: the branch for an error from `saveCollections` is not modelled.
  `saveCollections` always returns nil, so that branch never runs.
- SaveCollections: a failed upsert is modelled as writing nothing.
- SaveLastTime: a failed upsert is modelled as writing nothing.
- SaveEvent: an ordered bulk insert that fails is modelled as having
  written a prefix of the records.
- LoadProjects: the Go code fills a map that the caller passes in. The
  model passes the map by value and returns the result.
- `UpdateOnce` and `UpdateDaemon` are stubs that return nil. They are not
  modelled. Neither are the Telegram bot, the command line and the
  preferences.
- Per-project pagination of the event feed, dispatch to notification
  channels and price filtering do not appear in the core's code, so they
  are not modelled.
