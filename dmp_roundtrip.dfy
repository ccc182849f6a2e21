/**
 * Writing an item with `to_nosql_hash` and building a new item from the
 * record it produced (`DynamodbDmpItem.new(**record)`, as the adapter does
 * after a read) gives back the same key, the same DMP-ID, the same versions,
 * and the metadata and extras that were not nil. The other way round,
 * writing back an item read from a stored record reproduces every entry of
 * that record.
 */
module DmpRoundTrip {
  import opened Wrappers
  import opened RubyString
  import opened RubyJson
  import opened Ordering
  import opened DmpKeys
  import opened DmpRecord
  import NosqlItem

  /** The key of a stored DMP-ID version: `DMP#<domain>/<id>` and a `VERSION#` sort key. */
  predicate StoredKey(domain: string, id: string, key: Key) {
    && DomainOk(domain) && IdOk(domain, id) && !Contains(id, "doi:")
    && key.partition == PARTITION_KEY_DMP_PREFIX + domain + "/" + id
    && key.sort.Some? && StartsWith(key.sort.value, SORT_KEY_DMP_PREFIX)
  }

  /** A record whose `PK` and `SK` are a stored key is parsed back to that key and its DMP-ID. */
  lemma IdentifiersOfStored(domain: string, id: string, key: Key, versions: seq<string>, r: Hash)
    requires StoredKey(domain, id, key)
    requires "PK" in r && r["PK"] == JString(key.partition)
    requires "SK" in r && r["SK"] == JString(key.sort.value)
    ensures IdentifiersFromHash(domain, Ids(Some(NosqlItem.EMPTY_KEY), None), versions, r) == Success((true, Ids(Some(key), Some(id))))
  {
    AppendPrefixedUnchanged(domain, id);
    assert IsEmpty(Fetch(r, "PK", JString(""))) == Success(false);
    assert KeyFromPk(domain, Some(NosqlItem.EMPTY_KEY), r) == Success(key);
    KeyToDmpIdRoundTrip(domain, id, key.sort);
    PartitionKeyRoundTrip(domain, id);
    assert DmpIdAndVersionToKey(domain, Some(id), key.sort) == Some(key);
  }

  /** The timestamps of the entries `_versions_for_nosql` writes are the versions. */
  lemma {:induction false} TimestampsOfEntries(url: string, vs: seq<string>)
    ensures Timestamps(VersionsForNosql(url, vs)) == Success(seq(|vs|, i requires 0 <= i < |vs| => JString(vs[i])))
  {
    var items := VersionsForNosql(url, vs);
    var ts := Timestamps(items);
    forall i | 0 <= i < |items| ensures Index(items[i], "timestamp") == Success(JString(vs[i])) {
      assert items[i] == VersionEntry(url, vs[i]);
    }
    assert ts.Success?;
    assert ts.value == seq(|vs|, i requires 0 <= i < |vs| => JString(vs[i])) by {
      forall i | 0 <= i < |vs| ensures ts.value[i] == JString(vs[i]) {
        assert Index(items[i], "timestamp") == Success(ts.value[i]);
      }
    }
  }

  /** Reading `dmphub_versions` back gives the versions, provided `modified` is one of them. */
  lemma VersionsOfEntries(url: string, vs: seq<string>, m: string)
    requires m in vs
    ensures VersionsFrom(JArray(VersionsForNosql(url, vs)), JString(m)) == Success(vs)
  {
    TimestampsOfEntries(url, vs);
    var ts := seq(|vs|, i requires 0 <= i < |vs| => JString(vs[i]));
    var k :| 0 <= k < |vs| && vs[k] == m;
    assert ts[k] == JString(m);
    var back := AllStrings(ts);
    assert back.Some?;
    assert back.value == vs;
  }

  /**
   * A record with a stored key, no `dmp_id` conflict and, when it lists
   * versions, a `modified` among them, is parsed by `_from_hash` into that
   * key, its DMP-ID, the versions (already sorted), and the split of its
   * other entries.
   */
  lemma FromStoredRecord(domain: string, id: string, key: Key, url: string, vs: seq<string>, m: string, r: Hash)
    requires StoredKey(domain, id, key)
    requires "PK" in r && r["PK"] == JString(key.partition)
    requires "SK" in r && r["SK"] == JString(key.sort.value)
    requires "modified" in r && r["modified"] == JString(m)
    requires VERSIONS_KEY in r ==> r[VERSIONS_KEY] == JArray(VersionsForNosql(url, vs)) && m in vs && SortedDescending(vs)
    ensures FromHash(domain, InitialState(), r).Success?
    ensures var t := FromHash(domain, InitialState(), r).value;
      && t.key == Some(key) && t.dmpId == Some(id)
      && t.versions == (if VERSIONS_KEY in r then vs else [])
      && t.metadata == MetadataOf(r) && t.extras == ExtrasOf(r)
      && t.modifications == (if MODIFICATIONS_KEY in r then r[MODIFICATIONS_KEY] else JArray([]))
  {
    var versions := if VERSIONS_KEY in r then vs else [];
    if VERSIONS_KEY in r {
      VersionsOfEntries(url, vs, m);
      SortDescendingSortedInput(vs);
    }
    assert SortDescending(versions) == versions;
    IdentifiersOfStored(domain, id, key, versions, r);
    FromInitialWith(domain, r, versions, key, id);
  }

  /** `new` on a record whose versions and identifiers are already known. */
  lemma FromInitialWith(domain: string, r: Hash, versions: seq<string>, key: Key, id: string)
    requires (if VERSIONS_KEY in r then VersionsFrom(r[VERSIONS_KEY], Get(r, "modified")) else Success([])) == Success(versions)
    requires SortDescending(versions) == versions
    requires IdentifiersFromHash(domain, Ids(Some(NosqlItem.EMPTY_KEY), None), versions, r) == Success((true, Ids(Some(key), Some(id))))
    ensures FromHash(domain, InitialState(), r) == Success(ItemState(MetadataOf(r), ExtrasOf(r), versions,
      if MODIFICATIONS_KEY in r then r[MODIFICATIONS_KEY] else JArray([]), Some(key), Some(id)))
  {
    FromHashWith(domain, InitialState(), r, versions, true, Ids(Some(key), Some(id)));
    assert map[] + MetadataOf(r) == MetadataOf(r);
    assert map[] + ExtrasOf(r) == ExtrasOf(r);
  }

  /** The item state `to_nosql_hash` can write back faithfully. */
  predicate Writable(cfg: Config, id: string, s: ItemState) {
    && HasKey(s.key) && StoredKey(cfg.doiBaseDomain, id, s.key.value) && s.dmpId == Some(id)
    && (forall k :: k in s.metadata ==> MetadataKey(k))
    && (forall k :: k in s.extras ==> ExtrasKey(k))
    && SortedDescending(s.versions)
    && "modified" in s.metadata && s.metadata["modified"].JString?
    && (|s.versions| > 0 ==> s.metadata["modified"].s in s.versions)
  }

  /**
   * An item with a stored key, whose metadata and extras are as `_from_hash`
   * splits them, whose versions are sorted and hold its `modified`, is
   * written by `to_nosql_hash` into a record from which `new` rebuilds the
   * same key, DMP-ID and versions, and every metadata and extras entry that
   * was not nil.
   */
  lemma ToNosqlHashReadsBack(cfg: Config, taken: string -> bool, s: ItemState, draws: seq<Draw>, now: string, id: string)
    requires |draws| >= ATTEMPTS
    requires Writable(cfg, id, s)
    ensures ToNosqlHash(cfg, taken, s, draws, now).0.Success?
    ensures var out := ToNosqlHash(cfg, taken, s, draws, now).0.value;
      var t := FromHash(cfg.doiBaseDomain, InitialState(), out);
      && t.Success?
      && t.value.key == s.key && t.value.dmpId == s.dmpId && t.value.versions == s.versions
      && (forall k :: k in s.metadata && s.metadata[k] != JNull ==> k in t.value.metadata && t.value.metadata[k] == s.metadata[k])
      && (forall k :: k in s.extras && s.extras[k] != JNull ==> k in t.value.extras && t.value.extras[k] == s.extras[k])
  {
    GenerateKeyKeepsKey(cfg.doiBaseDomain, cfg.doiShoulder, taken, s, draws);
    var merged := Merged(NosqlMetadata(cfg, s), s);
    StoredOutput(cfg, s, now, id);
    var out := WithDefaults(merged, now, DefaultProvenance(cfg.applicationName)).value;
    assert ToNosqlHash(cfg, taken, s, draws, now).0 == Success(out);
    var url := cfg.dmpUrl(UnprefixedPartitionKey(cfg.doiBaseDomain, s.key.value.partition));
    FromStoredRecord(cfg.doiBaseDomain, id, s.key.value, url, s.versions, s.metadata["modified"].s, out);
    MergedCarries(cfg, s);
    CarriedEntries(s, merged, out);
  }

  /** What the record written for a writable item holds. */
  lemma StoredOutput(cfg: Config, s: ItemState, now: string, id: string)
    requires Writable(cfg, id, s)
    ensures var merged := Merged(NosqlMetadata(cfg, s), s);
      var w := WithDefaults(merged, now, DefaultProvenance(cfg.applicationName));
      && w.Success? && Keeps(merged, w.value)
      && "PK" in w.value && w.value["PK"] == JString(s.key.value.partition)
      && "SK" in w.value && w.value["SK"] == JString(s.key.value.sort.value)
      && "modified" in w.value && w.value["modified"] == s.metadata["modified"]
      && (VERSIONS_KEY in w.value ==>
            w.value[VERSIONS_KEY] == JArray(VersionsForNosql(cfg.dmpUrl(UnprefixedPartitionKey(cfg.doiBaseDomain, s.key.value.partition)), s.versions))
            && s.metadata["modified"].s in s.versions)
  {
    var merged := Merged(NosqlMetadata(cfg, s), s);
    MergedStored(cfg, s, id);
    DefaultsKeepStored(merged, now, DefaultProvenance(cfg.applicationName));
  }

  /** The merged record of a writable item, before the defaults. */
  lemma MergedStored(cfg: Config, s: ItemState, id: string)
    requires Writable(cfg, id, s)
    ensures var merged := Merged(NosqlMetadata(cfg, s), s);
      && "PK" in merged && merged["PK"] == JString(s.key.value.partition)
      && "SK" in merged && merged["SK"] == JString(s.key.value.sort.value)
      && "modified" in merged && merged["modified"] == s.metadata["modified"]
      && (VERSIONS_KEY in merged ==>
            merged[VERSIONS_KEY] == JArray(VersionsForNosql(cfg.dmpUrl(UnprefixedPartitionKey(cfg.doiBaseDomain, s.key.value.partition)), s.versions))
            && s.metadata["modified"].s in s.versions)
  {
    assert !ExtrasKey("PK") && !ExtrasKey("SK") && !ExtrasKey(VERSIONS_KEY) && !ExtrasKey("modified") && !ExtrasKey("dmp_id");
    assert !MetadataKey(VERSIONS_KEY);
    MergedOfStoredKey(cfg, s);
  }

  /** The merged record of an item whose extras hold none of the written keys. */
  lemma MergedOfStoredKey(cfg: Config, s: ItemState)
    requires HasKey(s.key) && s.key.value.sort.Some?
    requires "PK" !in s.extras && "SK" !in s.extras && "dmp_id" !in s.extras && VERSIONS_KEY !in s.extras && "modified" !in s.extras
    requires VERSIONS_KEY !in s.metadata && "modified" in s.metadata
    ensures var merged := Merged(NosqlMetadata(cfg, s), s);
      && "PK" in merged && merged["PK"] == JString(s.key.value.partition)
      && "SK" in merged && merged["SK"] == JString(s.key.value.sort.value)
      && "modified" in merged && merged["modified"] == s.metadata["modified"]
      && (VERSIONS_KEY in merged ==>
            |s.versions| > 0 &&
            merged[VERSIONS_KEY] == JArray(VersionsForNosql(cfg.dmpUrl(UnprefixedPartitionKey(cfg.doiBaseDomain, s.key.value.partition)), s.versions)))
  {
    var meta := NosqlMetadata(cfg, s);
    MergedFields(cfg, s);
    assert "modified" != MODIFICATIONS_KEY && !("modified" in {"PK", "SK", "dmp_id", VERSIONS_KEY});
    assert "modified" in meta && meta["modified"] == s.metadata["modified"];
  }

  /** The defaults succeed on a record with a String `modified` and keep its key, its `modified` and its versions. */
  lemma DefaultsKeepStored(a: Hash, now: string, p: string)
    requires "PK" in a && "SK" in a && "modified" in a && a["modified"].JString?
    ensures var w := WithDefaults(a, now, p);
      && w.Success? && Keeps(a, w.value)
      && "PK" in w.value && w.value["PK"] == a["PK"]
      && "SK" in w.value && w.value["SK"] == a["SK"]
      && "modified" in w.value && w.value["modified"] == a["modified"]
      && (VERSIONS_KEY in w.value ==> VERSIONS_KEY in a && w.value[VERSIONS_KEY] == a[VERSIONS_KEY])
  {
    var out := WithDefaults(a, now, p).value;
    WithDefaultsKeeps(a, now, p);
    KeptKey(a, out, "PK", a["PK"]);
    KeptKey(a, out, "SK", a["SK"]);
    assert a["modified"] != JNull;
    assert !Defaulted(VERSIONS_KEY);
  }

  /** Metadata and extras entries reach the merged record unchanged. */
  lemma MergedCarries(cfg: Config, s: ItemState)
    requires HasKey(s.key)
    requires forall k :: k in s.metadata ==> MetadataKey(k)
    requires forall k :: k in s.extras ==> ExtrasKey(k)
    ensures var merged := Merged(NosqlMetadata(cfg, s), s);
      && (forall k :: k in s.extras ==> k in merged && merged[k] == s.extras[k])
      && (forall k :: k in s.metadata ==> k in merged && merged[k] == s.metadata[k])
  {
    var meta := NosqlMetadata(cfg, s);
    var merged := Merged(meta, s);
    forall k | k in s.metadata ensures k in merged && merged[k] == s.metadata[k] {
      assert MetadataKey(k);
      assert k !in s.extras;
      assert k != MODIFICATIONS_KEY && !(k in {"PK", "SK", "dmp_id", VERSIONS_KEY});
    }
  }

  /** The entries of the metadata and extras survive the merge and the defaults, and are split back the same way. */
  lemma CarriedEntries(s: ItemState, merged: Hash, out: Hash)
    requires forall k :: k in s.metadata ==> MetadataKey(k)
    requires forall k :: k in s.extras ==> ExtrasKey(k)
    requires forall k :: k in s.extras ==> k in merged && merged[k] == s.extras[k]
    requires forall k :: k in s.metadata ==> k in merged && merged[k] == s.metadata[k]
    requires Keeps(merged, out)
    ensures forall k :: k in s.metadata && s.metadata[k] != JNull ==> k in MetadataOf(out) && MetadataOf(out)[k] == s.metadata[k]
    ensures forall k :: k in s.extras && s.extras[k] != JNull ==> k in ExtrasOf(out) && ExtrasOf(out)[k] == s.extras[k]
  {
  }

  /**
   * The other direction: a stored record read by `new` and written again by
   * `to_nosql_hash` reproduces every one of its entries, provided the record
   * is what `to_nosql_hash` itself would write. Its `dmp_id` is the DOI
   * `https://<domain>/<dmp-id>`, its version entries carry the landing page
   * URL of the DMP-ID, and none of the six defaulted keys is nil.
   */
  lemma StoredRecordReproduced(cfg: Config, taken: string -> bool, draws: seq<Draw>, now: string,
                               id: string, key: Key, vs: seq<string>, m: string, r: Hash)
    requires |draws| >= ATTEMPTS
    requires StoredKey(cfg.doiBaseDomain, id, key)
    requires "PK" in r && r["PK"] == JString(key.partition)
    requires "SK" in r && r["SK"] == JString(key.sort.value)
    requires "modified" in r && r["modified"] == JString(m)
    requires "dmp_id" in r ==> r["dmp_id"] == DmpIdJson(cfg.doiBaseDomain, Some(id))
    requires VERSIONS_KEY in r ==> r[VERSIONS_KEY] == JArray(VersionsForNosql(cfg.dmpUrl(id), vs)) && m in vs && SortedDescending(vs)
    requires "adapter" !in r
    requires forall k :: k in r && Defaulted(k) ==> r[k] != JNull
    ensures FromHash(cfg.doiBaseDomain, InitialState(), r).Success?
    ensures ToNosqlHash(cfg, taken, FromHash(cfg.doiBaseDomain, InitialState(), r).value, draws, now).0.Success?
    ensures var out := ToNosqlHash(cfg, taken, FromHash(cfg.doiBaseDomain, InitialState(), r).value, draws, now).0.value;
      forall k :: k in r ==> k in out && out[k] == r[k]
  {
    var domain := cfg.doiBaseDomain;
    UnprefixedWellFormed(domain, id);
    var url := cfg.dmpUrl(UnprefixedPartitionKey(domain, key.partition));
    assert url == cfg.dmpUrl(id);
    FromStoredRecord(domain, id, key, url, vs, m, r);
    var s := FromHash(domain, InitialState(), r).value;
    StoredItemWritable(cfg, id, key, vs, m, r, s);
    GenerateKeyKeepsKey(domain, cfg.doiShoulder, taken, s, draws);
    ToNosqlHashAfterKey(cfg, taken, s, draws, now, s);
    var merged := Merged(NosqlMetadata(cfg, s), s);
    StoredOutput(cfg, s, now, id);
    var out := WithDefaults(merged, now, DefaultProvenance(cfg.applicationName)).value;
    MergedFields(cfg, s);
    KeptKeys(merged, out);
    MergedCarries(cfg, s);
    ReproducedEntries(cfg, id, key, vs, r, s, merged, out);
  }

  /** The item `new` reads from such a record is one `to_nosql_hash` writes back faithfully. */
  lemma StoredItemWritable(cfg: Config, id: string, key: Key, vs: seq<string>, m: string, r: Hash, s: ItemState)
    requires StoredKey(cfg.doiBaseDomain, id, key)
    requires "modified" in r && r["modified"] == JString(m)
    requires VERSIONS_KEY in r ==> m in vs && SortedDescending(vs)
    requires s.key == Some(key) && s.dmpId == Some(id)
    requires s.versions == (if VERSIONS_KEY in r then vs else [])
    requires s.metadata == MetadataOf(r) && s.extras == ExtrasOf(r)
    ensures Writable(cfg, id, s)
  {
    assert "modified"[..7][0] != DMPHUB_PREFIX[0];
    assert MetadataKey("modified");
  }

  /** Each entry of the record is found, unchanged, in what is written back. */
  lemma ReproducedEntries(cfg: Config, id: string, key: Key, vs: seq<string>, r: Hash, s: ItemState, merged: Hash, out: Hash)
    requires "PK" in r && "SK" in r && "modified" in r && "adapter" !in r
    requires "dmp_id" in r ==> r["dmp_id"] == DmpIdJson(cfg.doiBaseDomain, Some(id))
    requires VERSIONS_KEY in r ==> r[VERSIONS_KEY] == JArray(VersionsForNosql(cfg.dmpUrl(id), vs))
    requires forall k :: k in r && Defaulted(k) ==> r[k] != JNull
    requires s.key == Some(key) && s.dmpId == Some(id) && UnprefixedPartitionKey(cfg.doiBaseDomain, key.partition) == id
    requires s.versions == (if VERSIONS_KEY in r then vs else [])
    requires s.metadata == MetadataOf(r) && s.extras == ExtrasOf(r)
    requires s.modifications == (if MODIFICATIONS_KEY in r then r[MODIFICATIONS_KEY] else JArray([]))
    requires "PK" in out && out["PK"] == r["PK"] && "SK" in out && out["SK"] == r["SK"]
    requires "dmp_id" in out && out["dmp_id"] == DmpIdJson(cfg.doiBaseDomain, s.dmpId)
    requires MODIFICATIONS_KEY in out && out[MODIFICATIONS_KEY] == s.modifications
    requires VERSIONS_KEY in r ==>
      && VERSIONS_KEY in out
      && out[VERSIONS_KEY] == JArray(VersionsForNosql(cfg.dmpUrl(UnprefixedPartitionKey(cfg.doiBaseDomain, key.partition)), s.versions))
    requires forall k :: k in s.extras ==> k in merged && merged[k] == s.extras[k]
    requires forall k :: k in s.metadata ==> k in merged && merged[k] == s.metadata[k]
    requires Keeps(merged, out)
    ensures forall k :: k in r ==> k in out && out[k] == r[k]
  {
    forall k | k in r ensures k in out && out[k] == r[k] {
      if MetadataKey(k) {
        assert k in s.metadata && merged[k] == r[k];
      } else if ExtrasKey(k) {
        assert k in s.extras && merged[k] == r[k];
      }
    }
  }
}
