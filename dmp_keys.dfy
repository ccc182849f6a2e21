/**
 * The DMP-ID key scheme of `Nosql::DynamodbDmpItem`: a partition key is
 * `DMP#<domain>/<dmp-id>`, a sort key is `VERSION#<timestamp>`,
 * `VERSION#latest` or `VERSION#tombstone`. This module holds the pure helpers
 * of app/services/nosql/dynamodb_dmp_item.rb that add and remove those
 * prefixes, turn a key back into a DMP-ID, pick the version of an incoming
 * record and spell the DOI-shaped candidates `_generate_key` tries.
 */
module DmpKeys {
  import opened Wrappers
  import opened RubyString
  import opened RubyJson

  const MSG_NO_DOI_BASE_DOMAIN: string := "No ENV['DOI_BASE_DOMAIN'] defined!"
  const MSG_NO_DOI_SHOULDER: string := "No ENV['DOI_SHOULDER'] defined!"
  const MSG_NO_DMP_ID_FOR_NEW: string := "No DMP IDs allowed when creating a new item!"
  const MSG_UNABLE_TO_ACQUIRE_NEW_ID: string := "Unable to acquire a new DMP ID after 10 attempts!"

  const PARTITION_KEY_DMP_PREFIX: string := "DMP#"
  const PROVENANCE_KEY_PREFIX: string := "PROVENANCE#"
  const SORT_KEY_DMP_PREFIX: string := "VERSION#"
  const SORT_KEY_DMP_LATEST_VERSION: string := SORT_KEY_DMP_PREFIX + "latest"
  const SORT_KEY_DMP_TOMBSTONE_VERSION: string := SORT_KEY_DMP_PREFIX + "tombstone"

  /**
   * The `@key` Hash `{ partition_key:, sort_key: }`. The partition key is
   * always a String; the sort key is nil when a stored record had `SK: null`.
   */
  datatype Key = Key(partition: string, sort: Option<string>)

  /** `@key.is_a?(Hash) && !@key[:partition_key]&.empty?` */
  predicate HasKey(key: Option<Key>) {
    key.Some? && key.value.partition != ""
  }

  // ---------------------------------------------------------------------------
  // Partition keys
  // ---------------------------------------------------------------------------

  /**
   * `_remove_partition_key_prefixing` on a String: a key that does not start
   * with `DMP#` is returned as it is; otherwise every `DMP#`, every web
   * protocol and every occurrence of the domain are removed, then one leading
   * and one trailing slash.
   */
  function UnprefixedPartitionKey(domain: string, key: string): (r: string)
    ensures !StartsWith(key, PARTITION_KEY_DMP_PREFIX) ==> r == key
    ensures |r| <= |key|
  {
    if !StartsWith(key, PARTITION_KEY_DMP_PREFIX) then key
    else
      var id := RemoveAll(key, PARTITION_KEY_DMP_PREFIX);
      DropTrailingSlash(DropLeadingSlash(RemoveAll(StripProtocol(id), domain)))
  }

  /** `_remove_partition_key_prefixing(key:)`: nil for anything but a String. */
  function RemovePartitionKeyPrefixing(domain: string, key: Json): (r: Option<string>)
    ensures r.Some? <==> key.JString?
    ensures key.JString? && !StartsWith(key.s, PARTITION_KEY_DMP_PREFIX) ==> r == Some(key.s)
  {
    if key.JString? then Some(UnprefixedPartitionKey(domain, key.s)) else None
  }

  /**
   * `_append_partition_key_prefixing` on a String: strips what prefixing is
   * already there, puts `<domain>/` in front unless the domain (without its
   * protocol) already occurs, then `DMP#`.
   */
  function PrefixedPartitionKey(domain: string, key: string): (r: string)
    ensures StartsWith(r, PARTITION_KEY_DMP_PREFIX)
    ensures r != ""
  {
    var id := UnprefixedPartitionKey(domain, key);
    var d := StripProtocol(domain);
    PARTITION_KEY_DMP_PREFIX + (if Contains(id, d) then id else d + "/" + id)
  }

  /** `_append_partition_key_prefixing(key:)`: nil for anything but a String. */
  function AppendPartitionKeyPrefixing(domain: string, key: Json): (r: Option<string>)
    ensures r.Some? <==> key.JString?
    ensures r.Some? ==> StartsWith(r.value, PARTITION_KEY_DMP_PREFIX)
  {
    if key.JString? then Some(PrefixedPartitionKey(domain, key.s)) else None
  }

  /**
   * A base domain such as `doi.org` or `localhost:3001`: non-empty, with no
   * slash (hence no web protocol) and no `DMP#` in it.
   */
  predicate DomainOk(domain: string) {
    |domain| > 0 && '/' !in domain && !Contains(domain, PARTITION_KEY_DMP_PREFIX)
  }

  /**
   * A DMP-ID the partition-key helpers carry through unchanged: it holds no
   * `DMP#`, no web protocol and no occurrence of the domain, and it neither
   * starts nor ends with a slash.
   */
  predicate IdOk(domain: string, id: string) {
    && !Contains(id, PARTITION_KEY_DMP_PREFIX)
    && !HasProtocol(id)
    && !Contains(id, domain)
    && !StartsWith(id, "/")
    && !EndsWith(id, "/")
  }

  /** The append helper puts exactly `DMP#<domain>/` in front of a well-formed DMP-ID. */
  lemma PrefixedWellFormed(domain: string, id: string)
    requires DomainOk(domain) && IdOk(domain, id)
    ensures PrefixedPartitionKey(domain, id) == PARTITION_KEY_DMP_PREFIX + domain + "/" + id
  {
    assert !StartsWith(id, PARTITION_KEY_DMP_PREFIX);
    NoSlashNoProtocol(domain);
    StripProtocolAbsent(domain);
  }

  /** Removing a leading pattern that occurs nowhere else leaves the rest. */
  lemma RemoveLeadingOnly(p: string, rest: string)
    requires |p| > 0 && !Contains(rest, p)
    ensures RemoveAll(p + rest, p) == rest
  {
    RemoveAllLeading(p, rest);
    RemoveAllAbsent(rest, p);
  }

  /** The text left after `DMP#` is removed carries no protocol and no second `DMP#`. */
  lemma DomainAndIdUntouched(domain: string, id: string)
    requires DomainOk(domain) && IdOk(domain, id)
    ensures !Contains(domain + "/" + id, PARTITION_KEY_DMP_PREFIX)
    ensures StripProtocol(domain + "/" + id) == domain + "/" + id
  {
    AbsentAroundSeparator(domain, '/', id, PARTITION_KEY_DMP_PREFIX);
    assert domain + "/" + id == domain + ['/'] + id;
    NoProtocolAroundSlash(domain, id);
    StripProtocolAbsent(domain + "/" + id);
  }

  /** Removing the domain leaves the slash and the id. */
  lemma DomainRemoved(domain: string, id: string)
    requires DomainOk(domain) && IdOk(domain, id)
    ensures RemoveAll(domain + "/" + id, domain) == "/" + id
  {
    var tail := "/" + id;
    assert domain + "/" + id == domain + tail;
    assert !Contains("", domain);
    AbsentAroundSeparator("", '/', id, domain);
    assert tail == "" + ['/'] + id;
    RemoveLeadingOnly(domain, tail);
  }

  /** The remove helper gives back the DMP-ID of a well-formed partition key. */
  lemma UnprefixedWellFormed(domain: string, id: string)
    requires DomainOk(domain) && IdOk(domain, id)
    ensures UnprefixedPartitionKey(domain, PARTITION_KEY_DMP_PREFIX + domain + "/" + id) == id
  {
    var p := PARTITION_KEY_DMP_PREFIX;
    var rest := domain + "/" + id;
    assert p + domain + "/" + id == p + rest;
    assert (p + rest)[..|p|] == p;
    DomainAndIdUntouched(domain, id);
    RemoveLeadingOnly(p, rest);
    DomainRemoved(domain, id);
    assert ("/" + id)[..1] == "/" && ("/" + id)[1..] == id;
  }

  /** The partition key of a well-formed DMP-ID, and the DMP-ID it gives back. */
  lemma PartitionKeyRoundTrip(domain: string, id: string)
    requires DomainOk(domain) && IdOk(domain, id)
    ensures PrefixedPartitionKey(domain, id) == PARTITION_KEY_DMP_PREFIX + domain + "/" + id
    ensures UnprefixedPartitionKey(domain, PrefixedPartitionKey(domain, id)) == id
  {
    PrefixedWellFormed(domain, id);
    UnprefixedWellFormed(domain, id);
  }

  /** A key already of the form `DMP#<domain>/<id>` is returned unchanged by the append helper. */
  lemma AppendPrefixedUnchanged(domain: string, id: string)
    requires DomainOk(domain) && IdOk(domain, id)
    ensures AppendPartitionKeyPrefixing(domain, JString(PARTITION_KEY_DMP_PREFIX + domain + "/" + id))
         == Some(PARTITION_KEY_DMP_PREFIX + domain + "/" + id)
  {
    PartitionKeyRoundTrip(domain, id);
  }

  // ---------------------------------------------------------------------------
  // Sort keys
  // ---------------------------------------------------------------------------

  /**
   * `_remove_sort_key_prefixing(key:)`: nil and `VERSION#latest` give
   * `VERSION#latest`; a key without the prefix is returned as it is; otherwise
   * only the one leading `VERSION#` is dropped.
   */
  function RemoveSortKeyPrefixing(key: Option<string>): (r: string)
    ensures key.None? || key == Some(SORT_KEY_DMP_LATEST_VERSION) ==> r == SORT_KEY_DMP_LATEST_VERSION
    ensures key.Some? && !StartsWith(key.value, SORT_KEY_DMP_PREFIX) ==> r == key.value
    ensures key.Some? && key.value != SORT_KEY_DMP_LATEST_VERSION && StartsWith(key.value, SORT_KEY_DMP_PREFIX) ==>
              SORT_KEY_DMP_PREFIX + r == key.value
  {
    if key.None? || key.value == SORT_KEY_DMP_LATEST_VERSION then SORT_KEY_DMP_LATEST_VERSION
    else if !StartsWith(key.value, SORT_KEY_DMP_PREFIX) then key.value
    else key.value[|SORT_KEY_DMP_PREFIX|..]
  }

  /**
   * `_append_sort_key_prefix(key:)`: nil stays nil, a key that already starts
   * with `VERSION#` is kept, any other key gets `VERSION#` in front.
   */
  function AppendSortKeyPrefix(key: Option<string>): (r: Option<string>)
    ensures r.None? <==> key.None?
    ensures r.Some? ==> StartsWith(r.value, SORT_KEY_DMP_PREFIX)
    ensures key.Some? && StartsWith(key.value, SORT_KEY_DMP_PREFIX) ==> r == key
    ensures key.Some? && !StartsWith(key.value, SORT_KEY_DMP_PREFIX) ==> r == Some(SORT_KEY_DMP_PREFIX + key.value)
  {
    if key.None? then None
    else if StartsWith(key.value, SORT_KEY_DMP_PREFIX) then key
    else
      assert (SORT_KEY_DMP_PREFIX + key.value)[..|SORT_KEY_DMP_PREFIX|] == SORT_KEY_DMP_PREFIX;
      Some(SORT_KEY_DMP_PREFIX + key.value)
  }

  /** Adding the sort-key prefix twice is the same as adding it once. */
  lemma SortKeyAppendIdempotent(key: Option<string>)
    ensures AppendSortKeyPrefix(AppendSortKeyPrefix(key)) == AppendSortKeyPrefix(key)
  {
  }

  /**
   * A version that is neither prefixed nor the word `latest` comes back
   * unchanged from the remove helper after the append helper.
   */
  lemma SortKeyRoundTrip(version: string)
    requires !StartsWith(version, SORT_KEY_DMP_PREFIX) && version != "latest"
    ensures RemoveSortKeyPrefixing(AppendSortKeyPrefix(Some(version))) == version
  {
    var k := SORT_KEY_DMP_PREFIX + version;
    assert k[|SORT_KEY_DMP_PREFIX|..] == version;
    assert SORT_KEY_DMP_LATEST_VERSION[|SORT_KEY_DMP_PREFIX|..] == "latest";
    assert k != SORT_KEY_DMP_LATEST_VERSION;
  }

  // ---------------------------------------------------------------------------
  // From a key to a DMP-ID and back
  // ---------------------------------------------------------------------------

  /**
   * `_key_to_dmp_id`: nil without a non-empty partition key; otherwise the
   * partition key with its prefixing removed, every `doi:` dropped and one
   * leading slash dropped.
   */
  function KeyToDmpId(domain: string, key: Option<Key>): (r: Option<string>)
    ensures r.Some? <==> HasKey(key)
  {
    if !HasKey(key) then None
    else Some(DropLeadingSlash(RemoveAll(UnprefixedPartitionKey(domain, key.value.partition), "doi:")))
  }

  /**
   * `_dmp_id_and_version_to_key(dmp_id:, version:)`: nil without a DMP-ID;
   * otherwise the prefixed DMP-ID and, as the sort key, `VERSION#latest` when
   * there is no version and the prefixed version when there is one.
   */
  function DmpIdAndVersionToKey(domain: string, dmpId: Option<string>, version: Option<string>): (r: Option<Key>)
    ensures r.None? <==> dmpId.None?
    ensures r.Some? ==> HasKey(r) && r.value.partition == PrefixedPartitionKey(domain, dmpId.value)
    ensures r.Some? && version.None? ==> r.value.sort == Some(SORT_KEY_DMP_LATEST_VERSION)
    ensures r.Some? && version.Some? ==> r.value.sort == AppendSortKeyPrefix(version)
  {
    if dmpId.None? then None
    else
      var sort := if version.None? then Some(SORT_KEY_DMP_LATEST_VERSION) else AppendSortKeyPrefix(version);
      Some(Key(PrefixedPartitionKey(domain, dmpId.value), sort))
  }

  /** The DMP-ID is recovered from the key built for it. */
  lemma KeyToDmpIdRoundTrip(domain: string, id: string, version: Option<string>)
    requires DomainOk(domain) && IdOk(domain, id) && !Contains(id, "doi:")
    ensures KeyToDmpId(domain, DmpIdAndVersionToKey(domain, Some(id), version)) == Some(id)
  {
    PartitionKeyRoundTrip(domain, id);
    RemoveAllAbsent(id, "doi:");
  }

  // ---------------------------------------------------------------------------
  // Versions
  // ---------------------------------------------------------------------------

  /**
   * `_detect_version(modified:)`: the modification date when it names a known
   * version, nil otherwise. `modified.empty?` raises NoMethodError on a
   * boolean or a number, but only once the short-circuit has got that far.
   */
  function DetectVersion(versions: seq<string>, modified: Json): (r: Result<Option<string>, RubyError>)
    ensures r.Failure? <==> |versions| > 0 && (modified.JBool? || modified.JNum?)
    ensures forall m :: r == Success(Some(m)) <==> |versions| > 0 && modified == JString(m) && m != "" && m in versions
  {
    if |versions| == 0 || modified.JNull? then Success(None)
    else
      var empty :- IsEmpty(modified);
      if empty then Success(None)
      else if modified.JString? && modified.s in versions then Success(Some(modified.s))
      else Success(None)
  }

  /**
   * `current_version?`: true when there are no versions or when the record's
   * `modified` is the first (the greatest) version. On the descending versions
   * every parsed item has, this means `modified` is the most recent version:
   * see `DmpRecord.CurrentVersionIsMostRecent`.
   */
  function CurrentVersion(versions: seq<string>, metadata: Hash): (r: bool)
    ensures r <==> |versions| == 0 || ("modified" in metadata && metadata["modified"] == JString(versions[0]))
  {
    |versions| == 0 || Get(metadata, "modified") == JString(versions[0])
  }

  /**
   * `_versions_for_nosql`: one `{ timestamp:, url: }` entry per version, in
   * order, the URL being the landing page URL with `?version=<timestamp>`.
   */
  function VersionsForNosql(url: string, versions: seq<string>): (r: seq<Json>)
    ensures |r| == |versions|
    ensures forall i :: 0 <= i < |r| ==> r[i] == VersionEntry(url, versions[i])
  {
    if |versions| == 0 then []
    else [VersionEntry(url, versions[0])] + VersionsForNosql(url, versions[1..])
  }

  function VersionEntry(url: string, version: string): Json {
    JObject(map["timestamp" := JString(version), "url" := JString(url + "?version=" + version)])
  }

  // ---------------------------------------------------------------------------
  // DOI-shaped candidates
  // ---------------------------------------------------------------------------

  /** Two random bytes, as `SecureRandom.hex(2)` consumes them. */
  type Word = w: nat | w < 0x1_0000

  /** The output of the two `SecureRandom.hex(2)` calls of one attempt. */
  datatype Draw = Draw(first: Word, second: Word)

  const LOWER_HEX: string := "0123456789abcdef"
  const UPPER_HEX: string := "0123456789ABCDEF"

  /** The four hex digits of `w`, most significant first. */
  function Hex4(w: Word, digits: string): (r: string)
    requires |digits| == 16
    ensures |r| == 4
    ensures forall i :: 0 <= i < 4 ==> r[i] in digits
  {
    [digits[w / 0x1000], digits[w / 0x100 % 16], digits[w / 0x10 % 16], digits[w % 16]]
  }

  /**
   * `"#{@doi_shoulder}#{SecureRandom.hex(2).upcase}#{SecureRandom.hex(2)}"`:
   * the shoulder, four upper-case hex digits, four lower-case hex digits.
   */
  function Candidate(shoulder: string, d: Draw): (r: string)
    ensures |r| == |shoulder| + 8 && r[..|shoulder|] == shoulder
    ensures forall i :: |shoulder| <= i < |shoulder| + 4 ==> r[i] in UPPER_HEX
    ensures forall i :: |shoulder| + 4 <= i < |r| ==> r[i] in LOWER_HEX
  {
    shoulder + Hex4(d.first, UPPER_HEX) + Hex4(d.second, LOWER_HEX)
  }
}
