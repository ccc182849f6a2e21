# DMP-ID keys and versions

A Dafny model of how the DMP hub stores DMP-IDs in DynamoDB, with proofs about it.

An item's partition key is `DMP#<domain>/<dmp-id>`. Its sort key is one of:
- `VERSION#<timestamp>`,
- `VERSION#latest`,
- `VERSION#tombstone`.

The model covers the following Ruby code.

**`Nosql::DynamodbDmpItem` and its base `Nosql::Item`**
- The prefix helpers for both kinds of key.
- The conversion from a key back to a DMP-ID.
- Version detection, and the current-version test.
- The split of an incoming record into metadata, extras, versions and modifications.
- The extraction of the key from a record.
- The bounded search for a free DOI-shaped identifier.
- The two serialisers, with their timestamp and provenance defaults.

**The earlier draft `NosqlAdapter::AwsDynamodbItem` and its base `NosqlAdapter::Item`**
- The same operations, in the draft's own form.
- The draft hands `_identifiers_from_hash` its scratch Hash instead of the record. So no key is ever read from a record, and every draft item gets a freshly generated key.

**`Dmp`**
- `registered?`.
- The key-equality guard of `find_by_dmp_id`.
- `delete`, which gives up on a registered record and otherwise deletes once per version.
- `tombstone`, which acts only on a registered record.

## Structure

**Support modules**
- `Wrappers`: `Option` and `Result`.
- `RubyString`: the `String` operations the code uses (`gsub` of a literal or of `https?://`, `start_with?`, slicing, `downcase`, `strip`).
- `RubyJson`: JSON values as Ruby sees them, and the Ruby exceptions.
- `Ordering`: the descending sort on strings.

**`Nosql::DynamodbDmpItem`**
- `DmpKeys`: the pure key helpers.
- `NosqlItem`: the base class.
- `DmpRecord`: each stateful operation as a function from the old state to the new state, with lemmas that state what the operations promise.
- `DmpRoundTrip`: reading back what `to_nosql_hash` wrote, and writing back a stored record that was read.
- `DmpItem`: the class `DynamodbDmpItem`. Its fields are the instance variables. Its methods update them step by step and are proved to end in the state the `DmpRecord` functions describe.

**The draft**
- `AdapterItem`: the base class.
- `DraftKeys`: the key helpers.
- `DraftRecord`: the state functions.
- `DraftItem`: the class `AwsDynamodbItem`.

**`Dmp`**
- `DmpModel`: the class `Dmp` over a draft item and a `Store`. The `Store` records the delete and put calls it receives.

**Errors.** Ruby exceptions are values of `RubyError`. An operation that can raise returns a `Result`, so every error path of the source is part of the model.

## Model

| member | source | states |
|---|---|---|
| DmpKeys.UnprefixedPartitionKey | app/services/nosql/dynamodb_dmp_item.rb:262-273 | a String key without `DMP#` in front is returned unchanged; the result is never longer than the key |
| DmpKeys.RemovePartitionKeyPrefixing | app/services/nosql/dynamodb_dmp_item.rb:262-264 | nil exactly for a non-String key; an unprefixed String is returned as it is |
| DmpKeys.PrefixedPartitionKey | app/services/nosql/dynamodb_dmp_item.rb:279-287 | the result always starts with `DMP#` |
| DmpKeys.AppendPartitionKeyPrefixing | app/services/nosql/dynamodb_dmp_item.rb:279-287 | nil exactly for a non-String key, otherwise a key starting with `DMP#` |
| DmpKeys.PrefixedWellFormed | app/services/nosql/dynamodb_dmp_item.rb:279-287 | a well-formed DMP-ID gets exactly `DMP#<domain>/` in front |
| DmpKeys.RemoveLeadingOnly | app/services/nosql/dynamodb_dmp_item.rb:267 | removing every `DMP#` takes off only the leading one when the rest holds none |
| DmpKeys.DomainAndIdUntouched | app/services/nosql/dynamodb_dmp_item.rb:267-268 | `<domain>/<id>` holds no prefix and no protocol for the removals to take |
| DmpKeys.DomainRemoved | app/services/nosql/dynamodb_dmp_item.rb:269 | removing the domain from `<domain>/<id>` leaves `/<id>` |
| DmpKeys.UnprefixedWellFormed | app/services/nosql/dynamodb_dmp_item.rb:262-273 | the remove helper gives back the DMP-ID of `DMP#<domain>/<id>` |
| DmpKeys.PartitionKeyRoundTrip | app/services/nosql/dynamodb_dmp_item.rb:262-287 | append(id) is `DMP#<domain>/<id>` and remove(append(id)) == id for a well-formed id and domain |
| DmpKeys.AppendPrefixedUnchanged | app/services/nosql/dynamodb_dmp_item.rb:279-287 | an already prefixed `DMP#<domain>/<id>` is returned unchanged |
| DmpKeys.RemoveSortKeyPrefixing | app/services/nosql/dynamodb_dmp_item.rb:293-298 | nil and `VERSION#latest` give `VERSION#latest`; an unprefixed key is kept; otherwise exactly the leading `VERSION#` goes |
| DmpKeys.AppendSortKeyPrefix | app/services/nosql/dynamodb_dmp_item.rb:304-309 | nil stays nil; a `VERSION#` key is kept; any other key gets `VERSION#` in front |
| DmpKeys.SortKeyAppendIdempotent | app/services/nosql/dynamodb_dmp_item.rb:304-309 | appending the prefix twice equals appending it once |
| DmpKeys.SortKeyRoundTrip | app/services/nosql/dynamodb_dmp_item.rb:293-309 | remove(append(v)) == v for v not prefixed and not `latest` |
| DmpKeys.KeyToDmpId | app/services/nosql/dynamodb_dmp_item.rb:208-217 | a DMP-ID exactly when the key has a non-empty partition key |
| DmpKeys.DmpIdAndVersionToKey | app/services/nosql/dynamodb_dmp_item.rb:224-231 | nil exactly without a DMP-ID; otherwise the prefixed DMP-ID and `VERSION#latest`, or the prefixed version when there is one |
| DmpKeys.KeyToDmpIdRoundTrip | app/services/nosql/dynamodb_dmp_item.rb:208-231 | the DMP-ID is read back from the key built for it, whatever the version |
| DmpKeys.DetectVersion | app/services/nosql/dynamodb_dmp_item.rb:252-256 | `modified` is returned exactly when the versions are non-empty and it is a non-empty known version; it raises exactly on a boolean or a number once it needs `empty?` |
| DmpKeys.CurrentVersion | app/services/nosql/dynamodb_dmp_item.rb:66-68 | true exactly when there are no versions or `modified` equals the first version; what that means for sorted versions is `DmpRecord.CurrentVersionIsMostRecent` |
| DmpKeys.VersionsForNosql | app/services/nosql/dynamodb_dmp_item.rb:236-246 | one `{timestamp, url?version=timestamp}` entry per version, in order |
| DmpKeys.Hex4 | app/services/nosql/dynamodb_dmp_item.rb:166 | four digits, each from the given hex alphabet |
| DmpKeys.Candidate | app/services/nosql/dynamodb_dmp_item.rb:166 | the shoulder followed by four upper-case and four lower-case hex digits |
| NosqlItem.ItemGuard | app/services/nosql/item.rb:32-35 | no error exactly when `RAILS_HOST` is set and an adapter is given; otherwise ItemError with the matching message, `RAILS_HOST` first |
| NosqlItem.BaseItemNew | app/services/nosql/item.rb:31-65 | the base class never builds an item; NotImplementedError exactly when the guards pass |
| DmpRecord.ConstructionError | app/services/nosql/dynamodb_dmp_item.rb:54-60 | no error exactly when domain and shoulder are non-empty and the base guards pass; an unset or empty domain raises ItemError first |
| DmpRecord.SplitIsPartition | app/services/nosql/dynamodb_dmp_item.rb:131-144 | each entry that is not skipped and is not versions or modifications lands in exactly one of metadata and extras, with its value; `dmphub_` keys never reach metadata |
| DmpRecord.Timestamps | app/services/nosql/dynamodb_dmp_item.rb:136 | one `v['timestamp']` per entry; raises exactly when some entry cannot be indexed |
| DmpRecord.AllStrings | app/services/nosql/dynamodb_dmp_item.rb:147 | the strings exactly when every timestamp is a String, which the sort needs |
| DmpRecord.VersionsFrom | app/services/nosql/dynamodb_dmp_item.rb:135-137 | reading the versions succeeds only with a String `modified`, which is then always one of them |
| DmpRecord.VersionsFromContents | app/services/nosql/dynamodb_dmp_item.rb:135-137 | the versions are the timestamps in order, plus `modified` once when it was not among them |
| DmpRecord.IdentifierOf | app/services/nosql/dynamodb_dmp_item.rb:199 | a String identifier loses its protocol and `<domain>/`; a nil one gives nil |
| DmpRecord.KeyFromPk | app/services/nosql/dynamodb_dmp_item.rb:193-195 | succeeds only on a String `PK`, whose prefixed form becomes the partition key |
| DmpRecord.IdentifiersFromHash | app/services/nosql/dynamodb_dmp_item.rb:186-203 | the answer is false exactly when there is no key and neither `PK` nor `dmp_id`, and then nothing changes |
| DmpRecord.IdentifiersKeepExistingKey | app/services/nosql/dynamodb_dmp_item.rb:187 | an existing non-empty key gives true and nothing changes |
| DmpRecord.IdentifiersWithoutIds | app/services/nosql/dynamodb_dmp_item.rb:188 | without `PK` and `dmp_id` the answer is false and nothing changes |
| DmpRecord.IdentifiersFromPk | app/services/nosql/dynamodb_dmp_item.rb:191-196 | a `PK` gives the key (prefixed `PK`, prefixed `SK` or `VERSION#latest`) and the DMP-ID read from it |
| DmpRecord.IdentifiersFromDmpId | app/services/nosql/dynamodb_dmp_item.rb:198-202 | without `PK` the DMP-ID is the stripped identifier and the sort key names `modified` when that is a known version, else latest |
| DmpRecord.FromHash | app/services/nosql/dynamodb_dmp_item.rb:127-154 | an existing key is kept, and a parsed item with a partition key always has a DMP-ID |
| DmpRecord.FromHashSplits | app/services/nosql/dynamodb_dmp_item.rb:127-154 | metadata and extras are the split, versions are sorted descending and are a permutation of what was read, modifications are copied, a DMP-ID is set whenever there is a partition key |
| DmpRecord.CurrentVersionIsMostRecent | app/services/nosql/dynamodb_dmp_item.rb:66-68 | on descending versions, `current_version?` is true exactly when there are no versions or `modified` is a String version that no other version exceeds, i.e. the most recent one |
| DmpRecord.ParsedCurrentVersion | app/services/nosql/dynamodb_dmp_item.rb:66-68 | every item `_from_hash` builds has descending versions, so for it `current_version?` means "`modified` is the most recent version" |
| DmpRecord.FromHashWith | app/services/nosql/dynamodb_dmp_item.rb:127-154 | once the versions read and the identifiers taken are known, the parsed item is the split, the sorted versions, the copied modifications and that key, with a nil DMP-ID filled in from the key |
| DmpRecord.FromHashKeepsEmptyKey | app/services/nosql/item.rb:37-41 | a record without `PK` and `dmp_id` leaves the empty key `{'', ''}` and no DMP-ID |
| DmpRecord.NewItem | app/services/nosql/dynamodb_dmp_item.rb:43-61 | a guard failure is the result, before any parsing |
| DmpRecord.CandidateKeys | app/services/nosql/dynamodb_dmp_item.rb:165-167 | eleven partition keys, one per attempt, in order |
| DmpRecord.FirstFree | app/services/nosql/dynamodb_dmp_item.rb:165-170 | the index of the first key reported absent, all before it taken; none exactly when all are taken |
| DmpRecord.FirstFreeExact | app/services/nosql/dynamodb_dmp_item.rb:165-170 | a free key whose predecessors are all taken is the one the loop stops at |
| DmpRecord.GenerateKey | app/services/nosql/dynamodb_dmp_item.rb:160-176 | on success the key is non-empty and nothing but the key and the DMP-ID changes |
| DmpRecord.GenerateKeyKeepsKey | app/services/nosql/dynamodb_dmp_item.rb:161 | an existing non-empty key is returned untouched |
| DmpRecord.GenerateKeyNew | app/services/nosql/dynamodb_dmp_item.rb:163-175 | the new key is the first free candidate's with `VERSION#latest`, and the DMP-ID is read back from it |
| DmpRecord.CandidateKeyRoundTrip | app/services/nosql/dynamodb_dmp_item.rb:166-174 | a well-formed candidate's key is `DMP#<domain>/<candidate>` and gives back the candidate |
| DmpRecord.GenerateKeyExhausted | app/services/nosql/dynamodb_dmp_item.rb:171 | it fails exactly when all eleven keys are taken, with ItemError(MSG_UNABLE_TO_ACQUIRE_NEW_ID) |
| DmpRecord.GenerateKeyFirstCandidate | app/services/nosql/dynamodb_dmp_item.rb:168 | with an adapter that reports every String key absent, the first candidate wins |
| DmpRecord.DmpIdJson | app/services/nosql/dynamodb_dmp_item.rb:88 | `{type: doi, identifier: https://<domain>/<dmp-id>}`, nil interpolating as nothing |
| DmpRecord.DefaultProvenance | app/services/nosql/dynamodb_dmp_item.rb:120-122 | starts with `PROVENANCE#`, and is exactly that without an application name |
| DmpRecord.FirstTen | app/services/nosql/dynamodb_dmp_item.rb:99 | a String gives its first ten characters; raises exactly on nil and booleans |
| DmpRecord.DefaultTo | app/services/nosql/dynamodb_dmp_item.rb:96-101 | the key is set to the default exactly when it was nil; no other key changes |
| DmpRecord.StampCreated | app/services/nosql/dynamodb_dmp_item.rb:96-98 | missing `created` and `modified` become now; a missing creation stamp copies `created` |
| DmpRecord.DefaultDay | app/services/nosql/dynamodb_dmp_item.rb:99 | a missing modification day is `modified[0..9]`; fails exactly when that slice raises |
| DmpRecord.StampUpdated | app/services/nosql/dynamodb_dmp_item.rb:100-101 | a missing update stamp is `modified`; a missing provenance is the default |
| DmpRecord.StampCreatedOthers | app/services/nosql/dynamodb_dmp_item.rb:96-98 | the first three defaults leave the modification day, update stamp and provenance as they were |
| DmpRecord.DefaultDayOthers | app/services/nosql/dynamodb_dmp_item.rb:99 | the modification-day default leaves the update stamp and provenance as they were |
| DmpRecord.StampUpdatedOthers | app/services/nosql/dynamodb_dmp_item.rb:100-101 | the last two defaults leave the modification day as it was |
| DmpRecord.WithDefaults | app/services/nosql/dynamodb_dmp_item.rb:95-102 | the defaults fail exactly on a boolean `modified` when the day is missing |
| DmpRecord.WithDefaultsKeeps | app/services/nosql/dynamodb_dmp_item.rb:95-102 | every non-nil value is kept, and only the six defaulted keys can be added |
| DmpRecord.WithDefaultsFills | app/services/nosql/dynamodb_dmp_item.rb:95-102 | every defaulted key is set to the value the source gives it |
| DmpRecord.NosqlMetadata | app/services/nosql/dynamodb_dmp_item.rb:82-90 | `PK`, `SK` and `dmp_id` are the key and the DMP-ID, versions are listed only when there are some, and the other entries are kept |
| DmpRecord.Merged | app/services/nosql/dynamodb_dmp_item.rb:91-92 | extras override metadata, and the modifications are set |
| DmpRecord.ToNosqlHash | app/services/nosql/dynamodb_dmp_item.rb:81-104 | a written hash means the item has a key; an item left without one is unchanged and nothing was written |
| DmpRecord.ToNosqlHashState | app/services/nosql/dynamodb_dmp_item.rb:81-92 | a failing key generation changes nothing; otherwise only the key, the DMP-ID and the written metadata change |
| DmpRecord.ToNosqlHashFields | app/services/nosql/dynamodb_dmp_item.rb:81-104 | the output's `PK`, `SK`, `dmp_id`, modifications and versions are the item's |
| DmpRecord.MergedFields | app/services/nosql/dynamodb_dmp_item.rb:86-92 | the merged record carries the key, the DMP-ID, the modifications and the versions |
| DmpRecord.ToNosqlHashCarries | app/services/nosql/dynamodb_dmp_item.rb:81-104 | other metadata and extras entries reach the output, extras winning, unless they were nil |
| DmpRecord.ToJson | app/services/nosql/dynamodb_dmp_item.rb:109-113 | the metadata plus `dmp_id`, which also becomes the new metadata |
| DmpRoundTrip.IdentifiersOfStored | app/services/nosql/dynamodb_dmp_item.rb:186-196 | a stored `PK`/`SK` pair is parsed back to that key and its DMP-ID |
| DmpRoundTrip.TimestampsOfEntries | app/services/nosql/dynamodb_dmp_item.rb:236-246 | the timestamps of the written version entries are the versions |
| DmpRoundTrip.VersionsOfEntries | app/services/nosql/dynamodb_dmp_item.rb:135-137 | reading written versions back gives them unchanged when `modified` is among them |
| DmpRoundTrip.FromStoredRecord | app/services/nosql/dynamodb_dmp_item.rb:127-154 | a stored record is parsed into its key, its DMP-ID, its versions, its modifications and the split of its entries |
| DmpRoundTrip.ToNosqlHashReadsBack | app/services/nosql/dynamodb_dmp_item.rb:81-154 | `new(to_nosql_hash)` rebuilds the same key, DMP-ID and versions, and every non-nil metadata and extras entry |
| DmpRoundTrip.StoredRecordReproduced | test/services/nosql/dynamodb_dmp_item_test.rb:186-192 | `new(record).to_nosql_hash` holds every entry of a stored record unchanged, when the record's `dmp_id` and version URLs are those the item writes and no defaulted key is nil |
| DmpRoundTrip.StoredItemWritable | app/services/nosql/dynamodb_dmp_item.rb:127-154 | the item read from a stored record can be written back faithfully |
| DmpRoundTrip.ReproducedEntries | app/services/nosql/dynamodb_dmp_item.rb:81-104 | each entry of the record, whether a written key, metadata or an extra, reaches the output unchanged |
| DmpRoundTrip.StoredOutput | app/services/nosql/dynamodb_dmp_item.rb:81-104 | what the record written for a storable item holds |
| DmpRoundTrip.MergedStored | app/services/nosql/dynamodb_dmp_item.rb:86-92 | the merged record of a storable item, before the defaults |
| DmpRoundTrip.DefaultsKeepStored | app/services/nosql/dynamodb_dmp_item.rb:95-103 | the defaults succeed on a String `modified` and keep the key, `modified` and the versions |
| DmpRoundTrip.MergedCarries | app/services/nosql/dynamodb_dmp_item.rb:91-92 | metadata and extras entries reach the merged record unchanged |
| DmpRoundTrip.CarriedEntries | app/services/nosql/dynamodb_dmp_item.rb:131-144 | non-nil entries survive the defaults and are split back the same way |
| DmpItem.DynamodbDmpItem.constructor | app/services/nosql/dynamodb_dmp_item.rb:43-51 | the empty state `_from_hash` starts from, with the empty key |
| DmpItem.DynamodbDmpItem.New | app/services/nosql/dynamodb_dmp_item.rb:43-61 | fails as `NewItem` does, or gives a fresh item in the state `NewItem` gives |
| DmpItem.DynamodbDmpItem.FromHash | app/services/nosql/dynamodb_dmp_item.rb:127-154 | the new fields are those of the `_from_hash` function, or the error it gives |
| DmpItem.DynamodbDmpItem.SplitEntries | app/services/nosql/dynamodb_dmp_item.rb:131-144 | the `hash.each` loop adds the split of the record to metadata and extras and sets versions and modifications |
| DmpItem.DynamodbDmpItem.IdentifiersFromHash | app/services/nosql/dynamodb_dmp_item.rb:186-203 | the answer and the new key and DMP-ID are those of the identifiers function |
| DmpItem.DynamodbDmpItem.GenerateKey | app/services/nosql/dynamodb_dmp_item.rb:160-176 | the new key and DMP-ID are those of the key-generation function |
| DmpItem.DynamodbDmpItem.FindFreeKey | app/services/nosql/dynamodb_dmp_item.rb:163-170 | the while loop finds the first free candidate key, or none |
| DmpItem.DynamodbDmpItem.ToNosqlHash | app/services/nosql/dynamodb_dmp_item.rb:81-104 | the output and the new state are those of the `to_nosql_hash` function |
| DmpItem.DynamodbDmpItem.WriteIdentifiers | app/services/nosql/dynamodb_dmp_item.rb:82-90 | the metadata becomes what `to_nosql_hash` writes into it through the alias; nothing else changes |
| DmpItem.DynamodbDmpItem.Defaults | app/services/nosql/dynamodb_dmp_item.rb:95-103 | the nil checks, run one after another, give the defaults function |
| DmpItem.DynamodbDmpItem.ToJson | app/services/nosql/dynamodb_dmp_item.rb:109-113 | the output and the new metadata are those of the `to_json` function |
| DmpItem.SplitStep | app/services/nosql/dynamodb_dmp_item.rb:132-143 | one visited entry goes to metadata, to extras, or to neither, as its key says |
| DmpItem.SplitDone | app/services/nosql/dynamodb_dmp_item.rb:131-144 | once every key is visited, the entries are the split of the whole record |
| Ordering.Insert | app/services/nosql/dynamodb_dmp_item.rb:147 | one element more, with the same multiset plus `x` |
| Ordering.SortDescending | app/services/nosql/dynamodb_dmp_item.rb:147 | a permutation of the versions |
| Ordering.SortDescendingSorted | app/services/nosql/dynamodb_dmp_item.rb:147 | `sort { \|a, b\| b <=> a }` leaves the versions in descending order |
| Ordering.SortedHeads | app/services/nosql/dynamodb_dmp_item.rb:147 | two descending sequences with the same elements have the same first element |
| Ordering.SortedTail | app/services/nosql/dynamodb_dmp_item.rb:147 | the tail of a descending sequence is descending |
| Ordering.SortedUnique | app/services/nosql/dynamodb_dmp_item.rb:147 | a descending permutation is unique, so its value does not depend on Ruby's sort algorithm |
| Ordering.SortedFirstIsGreatest | app/services/nosql/dynamodb_dmp_item.rb:66-68 | the first version is the greatest |
| AdapterItem.ItemGuard | app/services/nosql_adapter/item.rb:36-41 | no error exactly when the Symbol key `:dmp_id` is nil and the base URL and shoulder are non-empty; a `:dmp_id` raises NoSqlItemError first; an unset variable raises NoMethodError |
| AdapterItem.BaseItemNew | app/services/nosql_adapter/item.rb:35-72 | the base class never builds an item; NotImplementedError exactly when the guards pass |
| DraftKeys.UnprefixedPartitionKey | app/services/nosql_adapter/aws_dynamodb_item.rb:193-203 | the result is never longer than the key |
| DraftKeys.RemovePartitionKeyPrefixing | app/services/nosql_adapter/aws_dynamodb_item.rb:193-194 | nil exactly for a non-String key |
| DraftKeys.PrefixedPartitionKey | app/services/nosql_adapter/aws_dynamodb_item.rb:209-215 | the result starts with `DMP#` and the base URL |
| DraftKeys.AppendPartitionKeyPrefixing | app/services/nosql_adapter/aws_dynamodb_item.rb:209-215 | nil exactly for a non-String key, otherwise `DMP#<base URL>...` |
| DraftKeys.PartitionKeyRoundTrip | app/services/nosql_adapter/aws_dynamodb_item.rb:193-215 | with base URL `<domain>/`, append(id) is `DMP#<domain>/<id>` and remove gives id back |
| DraftKeys.UnprefixedId | app/services/nosql_adapter/aws_dynamodb_item.rb:193-203 | a well-formed DMP-ID passes through the remove helper unchanged |
| DraftKeys.UnprefixedKey | app/services/nosql_adapter/aws_dynamodb_item.rb:193-203 | the remove helper takes `DMP#<domain>/` off a well-formed key |
| DraftKeys.UnprefixedKeyStripped | app/services/nosql_adapter/aws_dynamodb_item.rb:193-203 | the draft strips keys without `DMP#` too (`x/` gives `x`), where the later item keeps them |
| DraftKeys.RemoveSortKeyPrefixing | app/services/nosql_adapter/aws_dynamodb_item.rb:221-225 | nil and `VERSION#latest` give `VERSION#latest`; otherwise the result is never longer than the key |
| DraftKeys.AppendSortKeyPrefix | app/services/nosql_adapter/aws_dynamodb_item.rb:231-235 | the result always starts with `VERSION#` |
| DraftKeys.RemoveSortKeyUnprefixed | app/services/nosql_adapter/aws_dynamodb_item.rb:221-225 | a key with no `VERSION#` in it is returned unchanged |
| DraftKeys.SortKeyRoundTrip | app/services/nosql_adapter/aws_dynamodb_item.rb:221-235 | remove(append(v)) == v for v holding no `VERSION#` and not `latest` |
| DraftKeys.RemoveSortKeyEveryOccurrence | app/services/nosql_adapter/aws_dynamodb_item.rb:224 | every `VERSION#` goes (`VERSION#VERSION#v1` gives `v1`), where the later item drops one |
| DraftKeys.AppendSortKeyDoubles | app/services/nosql_adapter/aws_dynamodb_item.rb:221-235 | nil and `VERSION#latest` both give `VERSION#VERSION#latest`, so appending twice differs from appending once |
| DraftKeys.KeyToDmpId | app/services/nosql_adapter/aws_dynamodb_item.rb:154-163 | a DMP-ID exactly when the partition key is non-empty, never longer than that key |
| DraftKeys.KeyToDmpIdRoundTrip | app/services/nosql_adapter/aws_dynamodb_item.rb:154-163 | the DMP-ID is read back from the partition key built for it |
| DraftRecord.SplitIsPartition | app/services/nosql_adapter/aws_dynamodb_item.rb:79-94 | an entry reaches metadata exactly when it is neither skipped nor `dmphub_`; each lands in at most one of metadata and extras, with its value |
| DraftRecord.IdentifiersFromHash | app/services/nosql_adapter/aws_dynamodb_item.rb:135-149 | false exactly without `PK` and `dmp_id`; true exactly when one is there and there is a key; otherwise NoMethodError |
| DraftRecord.IdentifiersOfScratch | app/services/nosql_adapter/aws_dynamodb_item.rb:76-100 | on the scratch Hash the answer is false, whatever the key |
| DraftRecord.Split | app/services/nosql_adapter/aws_dynamodb_item.rb:79-97 | metadata and extras gain the split entries, versions are read and sorted, and modifications are copied |
| DraftRecord.FromHash | app/services/nosql_adapter/aws_dynamodb_item.rb:75-103 | every parsed item has a key, whose partition key is non-empty unless the item has versions |
| DraftRecord.FromHashSplits | app/services/nosql_adapter/aws_dynamodb_item.rb:75-103 | the split, sorted and permuted versions, copied modifications, and always a key |
| DraftRecord.CandidateKeys | app/services/nosql_adapter/aws_dynamodb_item.rb:114-116 | eleven partition keys, one per attempt, in order |
| DraftRecord.GenerateKey | app/services/nosql_adapter/aws_dynamodb_item.rb:109-125 | on success there is a non-empty key, a new one having `VERSION#latest` and a DMP-ID; nothing but key and DMP-ID changes |
| DraftRecord.GenerateKeyKeepsKey | app/services/nosql_adapter/aws_dynamodb_item.rb:110 | an existing non-empty key is returned untouched |
| DraftRecord.GenerateKeyNew | app/services/nosql_adapter/aws_dynamodb_item.rb:112-124 | the new key is the first free candidate's with `VERSION#latest`, and the DMP-ID is read back from it |
| DraftRecord.GenerateKeyExhausted | app/services/nosql_adapter/aws_dynamodb_item.rb:120 | it fails exactly when all eleven keys are taken, with NoSqlItemError(MSG_UNABLE_TO_ACQUIRE_NEW_ID) |
| DraftRecord.GenerateKeyFirstCandidate | app/services/nosql_adapter/aws_dynamodb_item.rb:117 | with an adapter that reports every String key absent, the first candidate wins |
| DraftRecord.CandidateKeyRoundTrip | app/services/nosql_adapter/aws_dynamodb_item.rb:115-123 | with base URL `<domain>/`, a candidate's key is `DMP#<domain>/<candidate>` and gives back the candidate |
| DraftRecord.NewItem | app/services/nosql_adapter/aws_dynamodb_item.rb:35-43 | a guard failure is the result; a new item has a DMP-ID and its landing page URL |
| DraftRecord.NewItemContents | app/services/nosql_adapter/aws_dynamodb_item.rb:35-43 | a new item holds the split, sorted versions, no errors, and a freshly generated key, whatever `PK` or `SK` the record had |
| DraftRecord.FromHashNew | app/services/nosql_adapter/aws_dynamodb_item.rb:75-103 | `_from_hash` on a new item: the split, and the key of the first free candidate |
| DraftRecord.NewSplit | app/services/nosql_adapter/aws_dynamodb_item.rb:79-97 | the split of a new item's record |
| DraftRecord.FromHashGenerates | app/services/nosql_adapter/aws_dynamodb_item.rb:100-102 | a new item always reaches `_generate_key` |
| DraftRecord.ToNosqlHash | app/services/nosql_adapter/aws_dynamodb_item.rb:48-59 | NoMethodError exactly on a nil key, changing nothing; otherwise the output becomes the metadata |
| DraftRecord.ToNosqlHashFields | app/services/nosql_adapter/aws_dynamodb_item.rb:48-59 | `PK`/`SK` are the key; provenance defaults to `dmsp-prototype` only when nil; one version entry per version, in order; other entries kept |
| DraftRecord.NosqlHashRebuiltAfresh | app/services/nosql_adapter/aws_dynamodb_item.rb:48-59 | an item rebuilt from the written hash, whose keys are Strings, passes the `:dmp_id` guard; it holds the written `versions` in its metadata and the provenance in its extras, reads no versions back unless the metadata held `dmphub_versions`, and gets a freshly generated key |
| DraftRecord.RebuiltRecord | app/services/nosql_adapter/aws_dynamodb_item.rb:75-103 | the same for any record holding `versions` and `dmphub_provenance` |
| DraftRecord.NewItemWithoutVersions | app/services/nosql_adapter/aws_dynamodb_item.rb:79-97 | a record without `dmphub_versions` gives a new item without versions |
| DraftRecord.WrittenKeysSplit | app/services/nosql_adapter/aws_dynamodb_item.rb:79-94 | `_from_hash` skips `PK`, `SK` and `dmp_id`, puts `versions` in the metadata and `dmphub_provenance` in the extras |
| DraftRecord.ToJson | app/services/nosql_adapter/aws_dynamodb_item.rb:64-68 | the metadata plus `dmp_id` with the base URL in front of the DMP-ID, which also becomes the new metadata |
| DraftItem.AwsDynamodbItem.constructor | app/services/nosql_adapter/item.rb:43-45 | empty versions, metadata, errors and extras |
| DraftItem.AwsDynamodbItem.New | app/services/nosql_adapter/aws_dynamodb_item.rb:35-43 | fails as `NewItem` does, or gives a fresh item in the state `NewItem` gives |
| DraftItem.AwsDynamodbItem.FromHash | app/services/nosql_adapter/aws_dynamodb_item.rb:75-103 | the new fields are those of the `_from_hash` function, or the error it gives |
| DraftItem.AwsDynamodbItem.SplitEntries | app/services/nosql_adapter/aws_dynamodb_item.rb:79-94 | the `hash.each` loop adds the split to metadata and extras and sets versions and modifications |
| DraftItem.AwsDynamodbItem.IdentifiersFromHash | app/services/nosql_adapter/aws_dynamodb_item.rb:135-149 | the answer is the identifiers function's, on the states the draft reaches |
| DraftItem.AwsDynamodbItem.GenerateKey | app/services/nosql_adapter/aws_dynamodb_item.rb:109-125 | the new key and DMP-ID are those of the key-generation function |
| DraftItem.AwsDynamodbItem.FindFreeKey | app/services/nosql_adapter/aws_dynamodb_item.rb:112-119 | the while loop finds the first free candidate key, or none |
| DraftItem.AwsDynamodbItem.ToNosqlHash | app/services/nosql_adapter/aws_dynamodb_item.rb:48-59 | the output and the new metadata are those of the `to_nosql_hash` function |
| DraftItem.AwsDynamodbItem.ToJson | app/services/nosql_adapter/aws_dynamodb_item.rb:64-68 | the output and the new metadata are those of the `to_json` function |
| DraftItem.SplitStep | app/services/nosql_adapter/aws_dynamodb_item.rb:80-93 | one visited entry goes to metadata, to extras, or to neither, as its key says |
| DraftItem.SplitDone | app/services/nosql_adapter/aws_dynamodb_item.rb:79-94 | once every key is visited, the entries are the split of the whole record |
| DmpModel.Registered | app/models/dmp.rb:87-89 | true exactly when `registered` is a non-empty String, Array or Hash; NoMethodError exactly on nil, booleans and numbers |
| DmpModel.FindByDmpId | app/models/dmp.rb:28-38 | the fetched item exactly when it is an item whose key equals the requested one |
| DmpModel.Store.Delete | app/models/dmp.rb:59 | one delete of the key is logged |
| DmpModel.Store.Put | app/models/dmp.rb:104 | one put of the key and hash is logged |
| DmpModel.DeleteOf | app/models/dmp.rb:55-62 | fails exactly when `registered?` raises; acts exactly when unregistered, with one delete of the current key per version; otherwise no call |
| DmpModel.TitleText | app/models/dmp.rb:99 | nil interpolates as nothing and a String as itself |
| DmpModel.IntToString | app/models/dmp.rb:99 | `Integer#to_s`: a non-empty string of digits, after a minus sign exactly for a negative number, starting with `0` only for 0 |
| DmpModel.IntToStringValue | app/models/dmp.rb:99 | the digits read back as a decimal number give `n`, after the minus sign for a negative `n` |
| DmpModel.NaturalValue | app/models/dmp.rb:99 | the same for a non-negative number, by induction on its digits |
| DmpModel.Obsoleted | app/models/dmp.rb:97-102 | the key keeps its partition and gets `VERSION#tombstone`; the title starts with `OBSOLETE: `; `modified` equals `tombstoned`; every other metadata entry and every other field is kept |
| DmpModel.TombstoneOf | app/models/dmp.rb:94-105 | unregistered: false, no change and no call; registered: succeeds exactly with a key, with one put |
| DmpModel.TombstoneAsWritten | app/models/dmp.rb:94-97 | as written it never answers true |
| DmpModel.TombstoneAsWrittenRaises | app/models/dmp.rb:97 | a registered record raises NameError as written, while the corrected version succeeds whenever there is a key |
| DmpModel.TombstoneRegistered | app/models/dmp.rb:97-104 | the sort key becomes `VERSION#tombstone`, the title gets `OBSOLETE: `, `modified` = `tombstoned` = now, other entries kept, one put of the new key and record |
| DmpModel.DeleteOrTombstone | app/models/dmp.rb:55-105 | exactly one of `delete` and `tombstone` acts: delete when unregistered, tombstone when registered |
| DmpModel.Dmp.IsRegistered | app/models/dmp.rb:87-89 | the answer of `Registered` on the item's metadata |
| DmpModel.Dmp.Delete | app/models/dmp.rb:55-62 | the `@versions.each` loop logs exactly the deletes of `DeleteOf`, and the answer is its answer |
| DmpModel.Dmp.Tombstone | app/models/dmp.rb:94-105 | the new item state and the logged put are those of `TombstoneOf`; on failure nothing changes |

## Left out

**I/O, adapters and frameworks**
- The adapters and the AWS SDK are left out. Only the dictionary-shaped adapter calls are modelled:
  - the `exists?` answer, as a predicate `taken` on partition keys;
  - `Dmp`'s deletes and puts, as a `Store` that logs them.
- Adapter reads (`get`, `query`, `all`) are not modelled: `find_by_dmp_id` receives the fetched value as a parameter, and `from_dmp_id`, which no file defines, is replaced by the requested key.
- `delete` answers the literal true of `app/models/dmp.rb` line 61. `tombstone` answers what `put` returns; the draft adapter's `put` returns a literal true (`app/services/nosql_adapter/aws_dynamodb_adapter.rb` line 132), so the model's answer true is that value. An adapter error raised inside `put` or `delete` is not modelled.
- `save`, `valid?` and `_load_schema` are not modelled: they are JSON-Schema validation and logging.
- `Dmp#_should_version?` and `_new_version` are not modelled: their bodies are empty.
- `editable?` is not modelled as its own member: it only calls `current_version?`.
- Non-deterministic inputs are parameters:
  - `SecureRandom.hex(2)` is a sequence of drawn words;
  - `Time.now` is the string `now`.
- Framework inputs are parameters:
  - the Rails route helpers `dmp_url`/`dmps_url`;
  - `Rails.configuration.x.application_name`.

**Values**
- Floating-point JSON numbers are left out; numbers are integers.
- AdapterItem.ItemGuard: the draft guard reads only the Symbol key `:dmp_id`, given as `Args.symbolDmpId`; the record's entries are the String keys `_from_hash` parses, as in the Hashes the draft adapter rebuilds items from. Other Symbol keys a caller passes (such as `dmp_id:` from `DmpsController#set_dmp`) are not modelled as entries of the record.
- Symbol and String keys are collapsed: the model keys every Hash by Strings. Ruby uses Symbol keys in three places:
  - both items' `@extras` (`@extras[:"#{key}"]`, line 142 of `app/services/nosql/dynamodb_dmp_item.rb` and line 92 of the draft);
  - the nested `dmp_id` Hash `{ type:, identifier: }`;
  - each version entry `{ timestamp:, url: }`.
- The later item's `to_nosql_hash` and `to_json` end with `JSON.parse(hash.to_json)`, which turns every Symbol key into a String. No two keys collide when it does, since metadata keys never start with `dmphub_` and extras keys always do. So the model's output of the later item equals Ruby's normalised output. The item's own `@extras`, and the `dmp_id` written into `@metadata` through the alias, keep their Symbol keys in Ruby; the model's state shows them with String keys.
- The draft never normalises: its `to_nosql_hash` and `to_json` return Hashes whose nested `dmp_id` and version entries have Symbol keys. In Ruby, `out['dmp_id']['identifier']` is therefore nil, where DraftRecord.ToNosqlHash and DraftRecord.ToJson give the identifier. The model's draft output is Ruby's output with those Symbol keys read as Strings.
- `downcase` and `strip` are ASCII only.
- DmpRecord.VersionsFrom: keeps versions as Strings and raises ArgumentError as soon as one is not a String. Ruby raises only when `<=>` answers nil, as between a String and nil, so some of those lists do sort in Ruby:
  - `dmphub_versions: []` with no `modified` gives `[nil]`, a one-element list that Ruby never compares;
  - Integer timestamps `[1, 2]` sort to `[2, 1]`;
  - equal non-String values such as `[nil, nil]` sort as they are.
- `tombstone` interpolates an Array or Hash title through the parameter `inspect`, because `Hash#inspect` formatting is not modelled.
- An exception raised halfway through an operation leaves a partially updated state in Ruby; the model returns only the error where it was raised.

**Parts of the draft that cannot run**
- The draft `_identifiers_from_hash` past line 137 is not modelled as code: it always raises.
  - Line 139 writes into a nil `@key`.
  - `_detect_version` is not defined for the draft.
  - Line 172 (`version.nil? SORT_KEY_DMP_LATEST_VERSION`) passes an argument to `nil?`, which raises ArgumentError.
  - The model gives NoMethodError for every path past line 137.
- DraftRecord.IdentifiersFromHash: requires a nil key or a non-empty one, because these are the only states the draft reaches when it calls it.
- The draft's `_dmp_id_and_version_to_key` is not modelled: nothing reachable calls it.
- No file defines `_dmp_id_base_url`. `_from_hash` (line 102) calls `_generate_key`, whose line 116 calls `_append_partition_key_prefixing`, whose line 213 calls `_remove_partition_key_prefixing`, which calls it at line 199. So in Ruby every draft construction that passes the guards raises NameError, and no `AwsDynamodbItem`, hence no `Dmp`, is ever built. The model assumes the method exists and gives its value as the parameter `cfg.dmpIdBaseUrl`.
- `app/services/nosql/dynamodb_typeahead_item.rb` is not part of this model: it is a broken copy of the draft.

**Contracts stated with exceptions**
- DmpModel.Dmp.Delete: deletes the current key once per version, as written. It does not delete each version's own key.
- DmpModel.TombstoneOf: models the put as a put of the key and the serialised hash. The source passes `json:`, where the draft adapter's `put` takes `item:`.

## Findings

| source | as written | input that shows it | evidently intended | confidence | as-written member | corrected member |
|---|---|---|---|---|---|---|
| app/services/nosql_adapter/aws_dynamodb_item.rb:221-235 | `_append_sort_key_prefix` prepends `VERSION#` to what `_remove_sort_key_prefixing` returns, and that is `VERSION#latest` for nil and for `VERSION#latest` | `key: nil` or `key: 'VERSION#latest'` gives `VERSION#VERSION#latest` | a key that already carries the prefix is kept, so appending is idempotent, as the later item does | not executed | DraftKeys.AppendSortKeyDoubles | DmpKeys.SortKeyAppendIdempotent |
| app/models/dmp.rb:97 | `@key[:sort_key] = DMP_TOMBSTONE_VERSION` names a constant that no class in the hierarchy defines | any registered record, e.g. metadata `registered: 'yes'` with a key, raises NameError | the tombstone sort key `SORT_KEY_DMP_TOMBSTONE_VERSION` (`VERSION#tombstone`) | not executed | DmpModel.TombstoneAsWrittenRaises | DmpModel.TombstoneRegistered |
