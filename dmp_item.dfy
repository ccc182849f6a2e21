/**
 * `Nosql::DynamodbDmpItem` (app/services/nosql/dynamodb_dmp_item.rb) as an
 * object: its instance variables are fields, and each method updates them
 * step by step as the Ruby does. Every method is proved to leave the state
 * the matching function of dmp_record.dfy describes.
 */
module DmpItem {
  import opened Wrappers
  import opened RubyString
  import opened RubyJson
  import opened Ordering
  import opened DmpKeys
  import opened DmpRecord
  import NosqlItem

  class DynamodbDmpItem {
    /** `@doi_base_domain`, `@doi_shoulder` and the framework's helpers. */
    const cfg: Config
    /** `@adapter.exists?(key:)` on a partition key. */
    const taken: string -> bool

    var metadata: Hash
    var extras: Hash
    var versions: seq<string>
    var modifications: Json
    var key: Option<Key>
    var dmpId: Option<string>

    function State(): ItemState
      reads this
    {
      ItemState(metadata, extras, versions, modifications, key, dmpId)
    }

    /** The instance variables before `_from_hash` runs. */
    constructor (cfg: Config, taken: string -> bool)
      ensures this.cfg == cfg && this.taken == taken
      ensures State() == InitialState()
    {
      this.cfg := cfg;
      this.taken := taken;
      metadata := map[];
      extras := map[];
      versions := [];
      modifications := JArray([]);
      key := Some(NosqlItem.EMPTY_KEY);
      dmpId := None;
    }

    /**
     * `DynamodbDmpItem.new(**args)`: the guards of both constructors, then
     * the record parsed into a fresh item.
     */
    static method New(env: Env, hasAdapter: bool, applicationName: Option<string>, dmpUrl: string -> string,
                      taken: string -> bool, args: Hash) returns (r: Result<DynamodbDmpItem, RubyError>)
      ensures var n := NewItem(env, hasAdapter, args);
        && (r.Success? <==> n.Success?)
        && (r.Failure? ==> r.error == n.error)
        && (r.Success? ==>
              && fresh(r.value) && r.value.State() == n.value
              && r.value.cfg == Config(env.doiBaseDomain.value, env.doiShoulder.value, applicationName, dmpUrl)
              && r.value.taken == taken)
    {
      var err := ConstructionError(env, hasAdapter);
      if err.Some? {
        return Failure(err.value);
      }
      var item := new DynamodbDmpItem(Config(env.doiBaseDomain.value, env.doiShoulder.value, applicationName, dmpUrl), taken);
      var parsed := item.FromHash(args);
      if parsed.Failure? {
        return Failure(parsed.error);
      }
      return Success(item);
    }

    /**
     * `_from_hash(hash:)`: one pass over the record's entries, then the sort
     * of the versions, the identifiers, and the DMP-ID read from the key.
     */
    method FromHash(h: Hash) returns (r: Result<(), RubyError>)
      modifies this
      ensures var f := DmpRecord.FromHash(cfg.doiBaseDomain, old(State()), h);
        && (r.Success? <==> f.Success?)
        && (r.Failure? ==> r.error == f.error)
        && (r.Success? ==> State() == f.value)
    {
      var split := SplitEntries(h);
      if split.Failure? {
        return Failure(split.error);
      }
      versions := SortDescending(versions);
      var ids := IdentifiersFromHash(h);
      if ids.Failure? {
        return Failure(ids.error);
      }
      if dmpId.None? {
        dmpId := KeyToDmpId(cfg.doiBaseDomain, key);
      }
      return Success(());
    }

    /** The `hash.each` loop of `_from_hash`. */
    method SplitEntries(h: Hash) returns (r: Result<(), RubyError>)
      modifies this
      ensures var vs := if VERSIONS_KEY in h then VersionsFrom(h[VERSIONS_KEY], Get(h, "modified")) else Success(old(versions));
        && (r.Success? <==> vs.Success?)
        && (r.Failure? ==> r.error == vs.error)
        && (r.Success? ==> State() == old(State()).(
              metadata := old(metadata) + MetadataOf(h),
              extras := old(extras) + ExtrasOf(h),
              versions := vs.value,
              modifications := if MODIFICATIONS_KEY in h then h[MODIFICATIONS_KEY] else old(modifications)))
    {
      var modified := Get(h, "modified");
      var todo := h.Keys;
      while todo != {}
        invariant todo <= h.Keys
        invariant metadata == old(metadata) + MetadataDone(h, todo)
        invariant extras == old(extras) + ExtrasDone(h, todo)
        invariant VERSIONS_KEY in h && VERSIONS_KEY !in todo ==> VersionsFrom(h[VERSIONS_KEY], modified).Success?
        invariant versions == if VERSIONS_KEY in h && VERSIONS_KEY !in todo then VersionsFrom(h[VERSIONS_KEY], modified).value else old(versions)
        invariant modifications == if MODIFICATIONS_KEY in h && MODIFICATIONS_KEY !in todo then h[MODIFICATIONS_KEY] else old(modifications)
        invariant key == old(key) && dmpId == old(dmpId)
        decreases |todo|
      {
        var k :| k in todo;
        SplitStep(old(metadata), old(extras), h, todo, k);
        todo := todo - {k};
        if Skipped(k) {
        } else if k == VERSIONS_KEY {
          var vs := VersionsFrom(h[k], modified);
          if vs.Failure? {
            return Failure(vs.error);
          }
          versions := vs.value;
        } else if k == MODIFICATIONS_KEY {
          modifications := h[k];
        } else if !StartsWith(k, DMPHUB_PREFIX) {
          metadata := metadata[k := h[k]];
        } else {
          extras := extras[k := h[k]];
        }
      }
      SplitDone(h);
      return Success(());
    }

    /** `_identifiers_from_hash(**args)`, updating `@key` and `@dmp_id` in place. */
    method IdentifiersFromHash(args: Hash) returns (r: Result<bool, RubyError>)
      modifies this
      ensures var f := DmpRecord.IdentifiersFromHash(cfg.doiBaseDomain, Ids(old(key), old(dmpId)), old(versions), args);
        && (r.Success? <==> f.Success?)
        && (r.Failure? ==> r.error == f.error)
        && (r.Success? ==> r.value == f.value.0 && State() == old(State()).(key := f.value.1.key, dmpId := f.value.1.dmpId))
    {
      var domain := cfg.doiBaseDomain;
      if HasKey(key) {
        return Success(true);
      }
      if IsNil(args, "PK") && IsNil(args, "dmp_id") {
        return Success(false);
      }
      var nilPk :- IsEmpty(Fetch(args, "PK", JString("")));
      if !nilPk {
        if key.None? {
          return Failure(NoMethodError);
        }
        var pk := AppendPartitionKeyPrefixing(domain, Get(args, "PK"));
        var sk :- NilOrString(Fetch(args, "SK", JString(SORT_KEY_DMP_LATEST_VERSION)));
        if pk.None? {
          return Failure(NoMethodError);
        }
        key := Some(Key(pk.value, AppendSortKeyPrefix(sk)));
      }
      if key.None? {
        return Failure(NoMethodError);
      }
      if key.value.partition != "" {
        dmpId := KeyToDmpId(domain, key);
      }
      if dmpId.Some? {
        return Success(true);
      }
      var fromJson :- IdentifierOf(domain, Fetch(args, "dmp_id", JObject(map[])));
      dmpId := fromJson;
      var version :- DetectVersion(versions, Get(args, "modified"));
      key := DmpIdAndVersionToKey(domain, dmpId, version);
      return Success(true);
    }

    /**
     * `_generate_key`: up to eleven draws of a DOI-shaped candidate, stopping
     * at the first whose partition key the adapter does not know.
     */
    method GenerateKey(draws: seq<Draw>) returns (r: Result<Key, RubyError>)
      requires |draws| >= ATTEMPTS
      modifies this
      ensures var g := DmpRecord.GenerateKey(cfg.doiBaseDomain, cfg.doiShoulder, taken, old(State()), draws);
        && (r.Success? <==> g.Success?)
        && (g.Failure? ==> r == Failure(g.error) && State() == old(State()))
        && (g.Success? ==> State() == g.value && r.value == g.value.key.value)
    {
      if HasKey(key) {
        return Success(key.value);
      }
      var found := FindFreeKey(draws);
      if found.None? {
        return Failure(ItemError(MSG_UNABLE_TO_ACQUIRE_NEW_ID));
      }
      key := Some(Key(found.value, Some(SORT_KEY_DMP_LATEST_VERSION)));
      dmpId := KeyToDmpId(cfg.doiBaseDomain, key);
      return Success(key.value);
    }

    /** The `while id == '' && counter <= 10` loop: the partition key of the first free candidate, if any. */
    method FindFreeKey(draws: seq<Draw>) returns (found: Option<string>)
      requires |draws| >= ATTEMPTS
      ensures var keys := CandidateKeys(cfg.doiBaseDomain, cfg.doiShoulder, draws);
        var i := FirstFree(taken, keys);
        found == if i.None? then None else Some(keys[i.value])
    {
      ghost var keys := CandidateKeys(cfg.doiBaseDomain, cfg.doiShoulder, draws);
      var id := "";
      var counter := 0;
      var candidateKey := "";
      while id == "" && counter <= 10
        invariant 0 <= counter <= ATTEMPTS
        invariant id == "" ==> forall i :: 0 <= i < counter ==> taken(keys[i])
        invariant id != "" ==> 0 < counter && candidateKey == keys[counter - 1] && !taken(candidateKey)
        invariant id != "" ==> forall i :: 0 <= i < counter - 1 ==> taken(keys[i])
        decreases ATTEMPTS - counter
      {
        var doi := Candidate(cfg.doiShoulder, draws[counter]);
        candidateKey := PrefixedPartitionKey(cfg.doiBaseDomain, doi);
        assert candidateKey == keys[counter];
        assert |doi| > 0;
        if !taken(candidateKey) {
          id := doi;
        } else {
          assert forall i :: 0 <= i < counter + 1 ==> taken(keys[i]);
        }
        counter := counter + 1;
      }
      if id == "" {
        return None;
      }
      FirstFreeExact(taken, keys, counter - 1);
      return Some(candidateKey);
    }

    /**
     * `to_nosql_hash`: the key written into the metadata, then the extras,
     * the modifications and the defaults on a merged copy.
     */
    method ToNosqlHash(draws: seq<Draw>, now: string) returns (r: Result<Hash, RubyError>)
      requires |draws| >= ATTEMPTS
      modifies this
      ensures (r, State()) == DmpRecord.ToNosqlHash(cfg, taken, old(State()), draws, now)
    {
      var k :- GenerateKey(draws);
      ghost var s1 := State();
      DmpRecord.ToNosqlHashAfterKey(cfg, taken, old(State()), draws, now, s1);
      WriteIdentifiers();
      var hash := metadata + extras;
      hash := hash[MODIFICATIONS_KEY := modifications];
      r := Defaults(hash, now, DefaultProvenance(cfg.applicationName));
    }

    /**
     * Lines 82-90 of `to_nosql_hash`: `hash = @metadata` aliases the
     * metadata, so the key, the DMP-ID and the versions land in it.
     */
    method WriteIdentifiers()
      requires HasKey(key)
      modifies this
      ensures State() == old(State()).(metadata := NosqlMetadata(cfg, old(State())))
    {
      var k := key.value;
      var meta := metadata["PK" := JString(k.partition)];
      meta := meta["SK" := OptString(k.sort)];
      meta := meta["dmp_id" := DmpIdJson(cfg.doiBaseDomain, dmpId)];
      if |versions| > 0 {
        var url := cfg.dmpUrl(UnprefixedPartitionKey(cfg.doiBaseDomain, k.partition));
        meta := meta[VERSIONS_KEY := JArray(VersionsForNosql(url, versions))];
      }
      metadata := meta;
    }

    /** Lines 95-102 of `to_nosql_hash`, one nil check after another. */
    static method Defaults(h: Hash, now: string, provenance: string) returns (r: Result<Hash, RubyError>)
      ensures r == WithDefaults(h, now, provenance)
    {
      var hash := h;
      if Get(hash, "created") == JNull {
        hash := hash["created" := JString(now)];
      }
      if Get(hash, "dmphub_created_at") == JNull {
        hash := hash["dmphub_created_at" := Fetch(hash, "created", JString(now))];
      }
      if Get(hash, "modified") == JNull {
        hash := hash["modified" := JString(now)];
      }
      assert hash == StampCreated(h, now);
      if Get(hash, "dmphub_modification_day") == JNull {
        var day :- FirstTen(hash["modified"]);
        hash := hash["dmphub_modification_day" := day];
      }
      assert Success(hash) == DefaultDay(StampCreated(h, now));
      if Get(hash, "dmphub_updated_at") == JNull {
        hash := hash["dmphub_updated_at" := Fetch(hash, "modified", JString(now))];
      }
      if Get(hash, "dmphub_provenance_id") == JNull {
        hash := hash["dmphub_provenance_id" := JString(provenance)];
      }
      return Success(hash);
    }

    /** `to_json`: `dmp_id` written into the metadata, which is returned. */
    method ToJson() returns (r: Hash)
      modifies this
      ensures (r, State()) == DmpRecord.ToJson(cfg.doiBaseDomain, old(State()))
    {
      metadata := metadata["dmp_id" := DmpIdJson(cfg.doiBaseDomain, dmpId)];
      return metadata;
    }
  }

  /** The metadata entries of the keys already visited. */
  function MetadataDone(h: Hash, todo: set<string>): Hash {
    map k | k in h && k !in todo && MetadataKey(k) :: h[k]
  }

  /** The extras entries of the keys already visited. */
  function ExtrasDone(h: Hash, todo: set<string>): Hash {
    map k | k in h && k !in todo && ExtrasKey(k) :: h[k]
  }

  /** Visiting `k` adds its entry to metadata or to extras, or to neither. */
  lemma SplitStep(m: Hash, e: Hash, h: Hash, todo: set<string>, k: string)
    requires k in todo && todo <= h.Keys
    ensures MetadataKey(k) ==> m + MetadataDone(h, todo - {k}) == (m + MetadataDone(h, todo))[k := h[k]]
    ensures !MetadataKey(k) ==> MetadataDone(h, todo - {k}) == MetadataDone(h, todo)
    ensures ExtrasKey(k) ==> e + ExtrasDone(h, todo - {k}) == (e + ExtrasDone(h, todo))[k := h[k]]
    ensures !ExtrasKey(k) ==> ExtrasDone(h, todo - {k}) == ExtrasDone(h, todo)
    ensures MetadataKey(k) ==> !Skipped(k) && k != VERSIONS_KEY && k != MODIFICATIONS_KEY && !StartsWith(k, DMPHUB_PREFIX)
    ensures ExtrasKey(k) <==> !Skipped(k) && k != VERSIONS_KEY && k != MODIFICATIONS_KEY && StartsWith(k, DMPHUB_PREFIX)
    ensures !Skipped(k) && k != VERSIONS_KEY && k != MODIFICATIONS_KEY ==> MetadataKey(k) || ExtrasKey(k)
  {
    if k == VERSIONS_KEY || k == MODIFICATIONS_KEY {
      assert StartsWith(k, DMPHUB_PREFIX);
    }
  }

  /** All keys visited: the entries are the split of the whole record. */
  lemma SplitDone(h: Hash)
    ensures MetadataDone(h, {}) == MetadataOf(h)
    ensures ExtrasDone(h, {}) == ExtrasOf(h)
  {
  }
}
