/**
 * The key helpers of the earlier draft item `NosqlAdapter::AwsDynamodbItem`
 * (app/services/nosql_adapter/aws_dynamodb_item.rb). The key scheme is the one
 * of dmp_keys.dfy, but the helpers differ: the partition-key helpers strip
 * whatever prefixing they find without first checking for `DMP#`, and the
 * sort-key helpers remove every `VERSION#` and always put one back.
 *
 * The draft calls a `_dmp_id_base_url` that no file defines; here it is the
 * parameter `baseUrl`, the text between `DMP#` and the DMP-ID.
 */
module DraftKeys {
  import opened Wrappers
  import opened RubyString
  import opened RubyJson
  import DmpKeys

  // ---------------------------------------------------------------------------
  // Partition keys
  // ---------------------------------------------------------------------------

  /**
   * `_remove_partition_key_prefixing` on a String: every `DMP#`, then every
   * web protocol, then every occurrence of the base URL removed, then one
   * leading and one trailing slash.
   */
  function UnprefixedPartitionKey(baseUrl: string, key: string): (r: string)
    ensures |r| <= |key|
  {
    var id := RemoveAll(StripProtocol(RemoveAll(key, DmpKeys.PARTITION_KEY_DMP_PREFIX)), baseUrl);
    DropTrailingSlash(DropLeadingSlash(id))
  }

  /** `_remove_partition_key_prefixing(key:)`: nil for anything but a String. */
  function RemovePartitionKeyPrefixing(baseUrl: string, key: Json): (r: Option<string>)
    ensures r.Some? <==> key.JString?
  {
    if key.JString? then Some(UnprefixedPartitionKey(baseUrl, key.s)) else None
  }

  /** `_append_partition_key_prefixing` on a String: `DMP#`, the base URL, and the unprefixed key. */
  function PrefixedPartitionKey(baseUrl: string, key: string): (r: string)
    ensures StartsWith(r, DmpKeys.PARTITION_KEY_DMP_PREFIX + baseUrl)
    ensures |r| >= |DmpKeys.PARTITION_KEY_DMP_PREFIX| && r != ""
  {
    var p := DmpKeys.PARTITION_KEY_DMP_PREFIX + baseUrl;
    var r := p + UnprefixedPartitionKey(baseUrl, key);
    assert r[..|p|] == p;
    r
  }

  /** `_append_partition_key_prefixing(key:)`: nil for anything but a String. */
  function AppendPartitionKeyPrefixing(baseUrl: string, key: Json): (r: Option<string>)
    ensures r.Some? <==> key.JString?
    ensures r.Some? ==> StartsWith(r.value, DmpKeys.PARTITION_KEY_DMP_PREFIX + baseUrl)
  {
    if key.JString? then Some(PrefixedPartitionKey(baseUrl, key.s)) else None
  }

  /**
   * With a base URL of the form `<domain>/`, a well-formed DMP-ID gets
   * exactly `DMP#<domain>/` in front, and the remove helper gives it back.
   */
  lemma PartitionKeyRoundTrip(domain: string, id: string)
    requires DmpKeys.DomainOk(domain) && DmpKeys.IdOk(domain, id)
    ensures var baseUrl := domain + "/";
      && AppendPartitionKeyPrefixing(baseUrl, JString(id)) == Some(DmpKeys.PARTITION_KEY_DMP_PREFIX + domain + "/" + id)
      && RemovePartitionKeyPrefixing(baseUrl, JString(DmpKeys.PARTITION_KEY_DMP_PREFIX + domain + "/" + id)) == Some(id)
  {
    UnprefixedId(domain, id);
    UnprefixedKey(domain, id);
    assert DmpKeys.PARTITION_KEY_DMP_PREFIX + (domain + "/") + id == DmpKeys.PARTITION_KEY_DMP_PREFIX + domain + "/" + id;
  }

  /** A well-formed DMP-ID passes through the remove helper unchanged. */
  lemma UnprefixedId(domain: string, id: string)
    requires DmpKeys.DomainOk(domain) && DmpKeys.IdOk(domain, id)
    ensures UnprefixedPartitionKey(domain + "/", id) == id
  {
    RemoveAllAbsent(id, DmpKeys.PARTITION_KEY_DMP_PREFIX);
    StripProtocolAbsent(id);
    AbsentExtended(id, domain, "/");
    RemoveAllAbsent(id, domain + "/");
  }

  /** The remove helper takes `DMP#<domain>/` off a well-formed partition key. */
  lemma UnprefixedKey(domain: string, id: string)
    requires DmpKeys.DomainOk(domain) && DmpKeys.IdOk(domain, id)
    ensures UnprefixedPartitionKey(domain + "/", DmpKeys.PARTITION_KEY_DMP_PREFIX + domain + "/" + id) == id
  {
    var p := DmpKeys.PARTITION_KEY_DMP_PREFIX;
    var rest := domain + "/" + id;
    assert p + domain + "/" + id == p + rest;
    DmpKeys.DomainAndIdUntouched(domain, id);
    DmpKeys.RemoveLeadingOnly(p, rest);
    assert rest == (domain + "/") + id;
    RemoveAllLeading(domain + "/", id);
    AbsentExtended(id, domain, "/");
    RemoveAllAbsent(id, domain + "/");
  }

  /**
   * Unlike the later item, the draft strips a key that does not start with
   * `DMP#` as well: `x/` loses its trailing slash here and is kept there.
   */
  lemma UnprefixedKeyStripped()
    ensures UnprefixedPartitionKey("", "x/") == "x"
    ensures DmpKeys.UnprefixedPartitionKey("", "x/") == "x/"
  {
    assert !StartsWith("x/", DmpKeys.PARTITION_KEY_DMP_PREFIX);
    assert RemoveAll("x/", DmpKeys.PARTITION_KEY_DMP_PREFIX) == "x/" by {
      assert "x/"[1..] == "/" && "/"[1..] == "";
      assert !StartsWith("/", DmpKeys.PARTITION_KEY_DMP_PREFIX);
    }
    assert StripProtocol("x/") == "x/" by {
      assert "x/"[1..] == "/" && "/"[1..] == "";
      assert StripProtocol("/") == "/";
    }
  }

  // ---------------------------------------------------------------------------
  // Sort keys
  // ---------------------------------------------------------------------------

  /**
   * `_remove_sort_key_prefixing(key:)`: nil and `VERSION#latest` give
   * `VERSION#latest`; any other key loses every `VERSION#` it holds.
   */
  function RemoveSortKeyPrefixing(key: Option<string>): (r: string)
    ensures key.None? || key == Some(DmpKeys.SORT_KEY_DMP_LATEST_VERSION) ==> r == DmpKeys.SORT_KEY_DMP_LATEST_VERSION
    ensures key.Some? && key.value != DmpKeys.SORT_KEY_DMP_LATEST_VERSION ==> |r| <= |key.value|
  {
    if key.None? || key.value == DmpKeys.SORT_KEY_DMP_LATEST_VERSION then DmpKeys.SORT_KEY_DMP_LATEST_VERSION
    else RemoveAll(key.value, DmpKeys.SORT_KEY_DMP_PREFIX)
  }

  /** `_append_sort_key_prefix(key:)`: `VERSION#` in front of what the remove helper leaves. */
  function AppendSortKeyPrefix(key: Option<string>): (r: string)
    ensures StartsWith(r, DmpKeys.SORT_KEY_DMP_PREFIX)
  {
    var r := DmpKeys.SORT_KEY_DMP_PREFIX + RemoveSortKeyPrefixing(key);
    assert r[..|DmpKeys.SORT_KEY_DMP_PREFIX|] == DmpKeys.SORT_KEY_DMP_PREFIX;
    r
  }

  /** A key without `VERSION#` in it comes back unchanged from the remove helper. */
  lemma RemoveSortKeyUnprefixed(key: string)
    requires !Contains(key, DmpKeys.SORT_KEY_DMP_PREFIX)
    ensures RemoveSortKeyPrefixing(Some(key)) == key
  {
    if key == DmpKeys.SORT_KEY_DMP_LATEST_VERSION {
      assert StartsWith(key, DmpKeys.SORT_KEY_DMP_PREFIX);
    }
    RemoveAllAbsent(key, DmpKeys.SORT_KEY_DMP_PREFIX);
  }

  /**
   * A version with no `VERSION#` in it that is not the word `latest` comes
   * back unchanged from the remove helper after the append helper.
   */
  lemma SortKeyRoundTrip(version: string)
    requires !Contains(version, DmpKeys.SORT_KEY_DMP_PREFIX) && version != "latest"
    ensures RemoveSortKeyPrefixing(Some(AppendSortKeyPrefix(Some(version)))) == version
  {
    var p := DmpKeys.SORT_KEY_DMP_PREFIX;
    RemoveSortKeyUnprefixed(version);
    assert AppendSortKeyPrefix(Some(version)) == p + version;
    assert (p + version)[|p|..] == version;
    assert DmpKeys.SORT_KEY_DMP_LATEST_VERSION[|p|..] == "latest";
    assert p + version != DmpKeys.SORT_KEY_DMP_LATEST_VERSION;
    RemoveAllLeading(p, version);
    RemoveAllAbsent(version, p);
  }

  /**
   * Every occurrence goes, where the later item drops only the leading one:
   * `VERSION#VERSION#v1` gives `v1` here and `VERSION#v1` there.
   */
  lemma RemoveSortKeyEveryOccurrence()
    ensures RemoveSortKeyPrefixing(Some("VERSION#VERSION#v1")) == "v1"
    ensures DmpKeys.RemoveSortKeyPrefixing(Some("VERSION#VERSION#v1")) == "VERSION#v1"
  {
    var p := DmpKeys.SORT_KEY_DMP_PREFIX;
    assert "VERSION#VERSION#v1" == p + (p + "v1");
    RemoveAllLeading(p, p + "v1");
    RemoveAllLeading(p, "v1");
    assert !Contains("v1", p) by {
      assert !StartsWith("v1", p) && !StartsWith("1", p) && !StartsWith("", p);
      assert "v1"[1..] == "1" && "1"[1..] == "";
    }
    RemoveAllAbsent("v1", p);
  }

  /**
   * As written, the append helper puts a second `VERSION#` in front of
   * `VERSION#latest`, and nil ends up the same way. Appending the prefix to
   * its own result is therefore not the identity: `latest` becomes
   * `VERSION#latest`, which becomes `VERSION#VERSION#latest`.
   */
  lemma AppendSortKeyDoubles()
    ensures AppendSortKeyPrefix(None) == "VERSION#VERSION#latest"
    ensures AppendSortKeyPrefix(Some(DmpKeys.SORT_KEY_DMP_LATEST_VERSION)) == "VERSION#VERSION#latest"
    ensures AppendSortKeyPrefix(Some("latest")) == DmpKeys.SORT_KEY_DMP_LATEST_VERSION
    ensures AppendSortKeyPrefix(Some(AppendSortKeyPrefix(Some("latest")))) != AppendSortKeyPrefix(Some("latest"))
  {
    assert !Contains("latest", DmpKeys.SORT_KEY_DMP_PREFIX);
    RemoveSortKeyUnprefixed("latest");
    assert |"VERSION#VERSION#latest"| != |DmpKeys.SORT_KEY_DMP_LATEST_VERSION|;
  }

  // ---------------------------------------------------------------------------
  // From a key to a DMP-ID
  // ---------------------------------------------------------------------------

  /**
   * `_key_to_dmp_id`: nil without a non-empty partition key; otherwise the
   * partition key with its prefixing removed, every `doi:` dropped and one
   * leading slash dropped.
   */
  function KeyToDmpId(baseUrl: string, key: Option<DmpKeys.Key>): (r: Option<string>)
    ensures r.Some? <==> DmpKeys.HasKey(key)
    ensures r.Some? ==> |r.value| <= |key.value.partition|
  {
    if !DmpKeys.HasKey(key) then None
    else Some(DropLeadingSlash(RemoveAll(UnprefixedPartitionKey(baseUrl, key.value.partition), "doi:")))
  }

  /** The DMP-ID is recovered from the partition key built for it. */
  lemma KeyToDmpIdRoundTrip(domain: string, id: string, sort: Option<string>)
    requires DmpKeys.DomainOk(domain) && DmpKeys.IdOk(domain, id) && !Contains(id, "doi:")
    ensures var key := Some(DmpKeys.Key(PrefixedPartitionKey(domain + "/", id), sort));
      KeyToDmpId(domain + "/", key) == Some(id)
  {
    PartitionKeyRoundTrip(domain, id);
    RemoveAllAbsent(id, "doi:");
  }

  // ---------------------------------------------------------------------------
  // DOI-shaped candidates
  // ---------------------------------------------------------------------------

  /** The partition key of the candidate drawn in one attempt of `_generate_key`. */
  function CandidateKey(baseUrl: string, shoulder: string, d: DmpKeys.Draw): string {
    PrefixedPartitionKey(baseUrl, DmpKeys.Candidate(shoulder, d))
  }
}
