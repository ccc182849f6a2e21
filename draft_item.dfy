/**
 * The earlier draft item `NosqlAdapter::AwsDynamodbItem`
 * (app/services/nosql_adapter/aws_dynamodb_item.rb) as an object: its
 * instance variables are fields, and each method updates them step by step
 * as the Ruby does. Every method is proved to leave the state the matching
 * function of draft_record.dfy describes.
 */
module DraftItem {
  import opened Wrappers
  import opened RubyString
  import opened RubyJson
  import opened Ordering
  import opened DraftKeys
  import opened DraftRecord
  import DmpKeys
  import DmpRecord
  import AdapterItem

  class AwsDynamodbItem {
    /** `@doi_base_url` and `@doi_shoulder`, read from the environment. */
    const doiBaseUrl: string
    const doiShoulder: string
    /** `_dmp_id_base_url` and the `dmps_url` route helper. */
    const cfg: Config
    /** `NOSQL_ADAPTER.exists?(key:)` on a partition key. */
    const taken: string -> bool

    var metadata: Hash
    var extras: Hash
    var versions: seq<string>
    var modifications: Json
    var key: Option<DmpKeys.Key>
    var dmpId: Option<string>
    var errors: seq<string>
    var landingPageUrl: string

    function State(): DraftState
      reads this
    {
      DraftState(metadata, extras, versions, modifications, key, dmpId, errors, landingPageUrl)
    }

    /** The draft's key is nil or has a non-empty partition key. */
    predicate KeyShape()
      reads this
    {
      key.None? || DmpKeys.HasKey(key)
    }

    /**
     * The instance variables before `_from_hash` runs: empty extras, then,
     * in the base class, empty versions, metadata and errors.
     */
    constructor (doiBaseUrl: string, doiShoulder: string, cfg: Config, taken: string -> bool)
      ensures this.doiBaseUrl == doiBaseUrl && this.doiShoulder == doiShoulder
      ensures this.cfg == cfg && this.taken == taken
      ensures State() == InitialState()
      ensures versions == [] && metadata == map[] && errors == []
    {
      this.doiBaseUrl := doiBaseUrl;
      this.doiShoulder := doiShoulder;
      this.cfg := cfg;
      this.taken := taken;
      extras := map[];
      versions := [];
      metadata := map[];
      errors := [];
      modifications := JNull;
      key := None;
      dmpId := None;
      landingPageUrl := "";
    }

    /**
     * `AwsDynamodbItem.new(**args)`: the base guards, the record parsed into
     * a fresh item, then the landing page URL.
     */
    static method New(env: AdapterItem.Env, cfg: Config, taken: string -> bool, draws: seq<DmpKeys.Draw>, args: AdapterItem.Args)
      returns (r: Result<AwsDynamodbItem, RubyError>)
      requires |draws| >= DmpRecord.ATTEMPTS
      ensures var n := NewItem(env, cfg, taken, draws, args);
        && (r.Success? <==> n.Success?)
        && (r.Failure? ==> r.error == n.error)
        && (r.Success? ==>
              && fresh(r.value) && r.value.State() == n.value
              && r.value.doiBaseUrl == env.doiBaseUrl.value && r.value.doiShoulder == env.doiShoulder.value
              && r.value.cfg == cfg && r.value.taken == taken)
    {
      var err := AdapterItem.ItemGuard(env, args);
      if err.Some? {
        return Failure(err.value);
      }
      var item := new AwsDynamodbItem(env.doiBaseUrl.value, env.doiShoulder.value, cfg, taken);
      var parsed := item.FromHash(args.record, draws);
      if parsed.Failure? {
        return Failure(parsed.error);
      }
      FromHashSplits(cfg.dmpIdBaseUrl, env.doiShoulder.value, taken, InitialState(), args.record, draws);
      item.landingPageUrl := cfg.landingUrl(item.dmpId.value);
      return Success(item);
    }

    /**
     * `_from_hash(hash:)`: one pass over the record's entries, the sort of
     * the versions, the identifiers consulted with the scratch Hash, then a
     * generated key.
     */
    method FromHash(h: Hash, draws: seq<DmpKeys.Draw>) returns (r: Result<(), RubyError>)
      requires |draws| >= DmpRecord.ATTEMPTS
      requires KeyShape()
      modifies this
      ensures var f := DraftRecord.FromHash(cfg.dmpIdBaseUrl, doiShoulder, taken, old(State()), h, draws);
        && (r.Success? <==> f.Success?)
        && (r.Failure? ==> r.error == f.error)
        && (r.Success? ==> State() == f.value)
    {
      var split := SplitEntries(h);
      if split.Failure? {
        return Failure(split.error);
      }
      versions := SortDescending(versions);
      assert State() == Split(old(State()), h).value;
      var _ :- IdentifiersFromHash(SCRATCH);
      if key.None? || (key.value.partition == "" && |versions| == 0) {
        var _ :- GenerateKey(draws);
      }
      return Success(());
    }

    /** The `hash.each` loop of `_from_hash`. */
    method SplitEntries(h: Hash) returns (r: Result<(), RubyError>)
      modifies this
      ensures var vs := if DmpRecord.VERSIONS_KEY in h then DmpRecord.VersionsFrom(h[DmpRecord.VERSIONS_KEY], Get(h, "modified")) else Success(old(versions));
        && (r.Success? <==> vs.Success?)
        && (r.Failure? ==> r.error == vs.error)
        && (r.Success? ==> State() == old(State()).(
              metadata := old(metadata) + MetadataOf(h),
              extras := old(extras) + ExtrasOf(h),
              versions := vs.value,
              modifications := if DmpRecord.MODIFICATIONS_KEY in h then h[DmpRecord.MODIFICATIONS_KEY] else old(modifications)))
    {
      var modified := Get(h, "modified");
      var todo := h.Keys;
      while todo != {}
        invariant todo <= h.Keys
        invariant metadata == old(metadata) + MetadataDone(h, todo)
        invariant extras == old(extras) + ExtrasDone(h, todo)
        invariant DmpRecord.VERSIONS_KEY in h && DmpRecord.VERSIONS_KEY !in todo ==> DmpRecord.VersionsFrom(h[DmpRecord.VERSIONS_KEY], modified).Success?
        invariant versions == if DmpRecord.VERSIONS_KEY in h && DmpRecord.VERSIONS_KEY !in todo then DmpRecord.VersionsFrom(h[DmpRecord.VERSIONS_KEY], modified).value else old(versions)
        invariant modifications == if DmpRecord.MODIFICATIONS_KEY in h && DmpRecord.MODIFICATIONS_KEY !in todo then h[DmpRecord.MODIFICATIONS_KEY] else old(modifications)
        invariant key == old(key) && dmpId == old(dmpId) && errors == old(errors) && landingPageUrl == old(landingPageUrl)
        decreases |todo|
      {
        var k :| k in todo;
        SplitStep(old(metadata), old(extras), h, todo, k);
        todo := todo - {k};
        if Skipped(k) {
        } else {
          if !StartsWith(k, DmpRecord.DMPHUB_PREFIX) {
            metadata := metadata[k := h[k]];
          } else if k == DmpRecord.VERSIONS_KEY {
            var vs := DmpRecord.VersionsFrom(h[k], modified);
            if vs.Failure? {
              return Failure(vs.error);
            }
            versions := vs.value;
          } else if k == DmpRecord.MODIFICATIONS_KEY {
            modifications := h[k];
          } else {
            extras := extras[k := h[k]];
          }
        }
      }
      SplitDone(h);
      return Success(());
    }

    /**
     * `_identifiers_from_hash(**args)`. The draft only ever reaches it with a
     * nil `@key` or a non-empty one, and on those paths it changes nothing
     * before it answers or raises.
     */
    method IdentifiersFromHash(args: Hash) returns (r: Result<bool, RubyError>)
      requires KeyShape()
      ensures r == DraftRecord.IdentifiersFromHash(key, args)
    {
      if IsNil(args, "PK") && IsNil(args, "dmp_id") {
        return Success(false);
      }
      if DmpKeys.HasKey(key) {
        return Success(true);
      }
      return Failure(NoMethodError);
    }

    /**
     * `_generate_key`: up to eleven draws of a DOI-shaped candidate, stopping
     * at the first whose partition key the adapter does not know.
     */
    method GenerateKey(draws: seq<DmpKeys.Draw>) returns (r: Result<DmpKeys.Key, RubyError>)
      requires |draws| >= DmpRecord.ATTEMPTS
      modifies this
      ensures var g := DraftRecord.GenerateKey(cfg.dmpIdBaseUrl, doiShoulder, taken, old(State()), draws);
        && (r.Success? <==> g.Success?)
        && (g.Failure? ==> r == Failure(g.error) && State() == old(State()))
        && (g.Success? ==> State() == g.value && r.value == g.value.key.value)
    {
      if DmpKeys.HasKey(key) {
        return Success(key.value);
      }
      var found := FindFreeKey(draws);
      if found.None? {
        return Failure(NoSqlItemError(AdapterItem.MSG_UNABLE_TO_ACQUIRE_NEW_ID));
      }
      key := Some(DmpKeys.Key(found.value, Some(DmpKeys.SORT_KEY_DMP_LATEST_VERSION)));
      dmpId := KeyToDmpId(cfg.dmpIdBaseUrl, key);
      return Success(key.value);
    }

    /** The `while id == '' && counter <= 10` loop: the partition key of the first free candidate, if any. */
    method FindFreeKey(draws: seq<DmpKeys.Draw>) returns (found: Option<string>)
      requires |draws| >= DmpRecord.ATTEMPTS
      ensures var keys := CandidateKeys(cfg.dmpIdBaseUrl, doiShoulder, draws);
        var i := DmpRecord.FirstFree(taken, keys);
        found == if i.None? then None else Some(keys[i.value])
    {
      ghost var keys := CandidateKeys(cfg.dmpIdBaseUrl, doiShoulder, draws);
      var id := "";
      var counter := 0;
      var candidateKey := "";
      while id == "" && counter <= 10
        invariant 0 <= counter <= DmpRecord.ATTEMPTS
        invariant id == "" ==> forall i :: 0 <= i < counter ==> taken(keys[i])
        invariant id != "" ==> 0 < counter && candidateKey == keys[counter - 1] && !taken(candidateKey)
        invariant id != "" ==> forall i :: 0 <= i < counter - 1 ==> taken(keys[i])
        decreases DmpRecord.ATTEMPTS - counter
      {
        var doi := DmpKeys.Candidate(doiShoulder, draws[counter]);
        candidateKey := PrefixedPartitionKey(cfg.dmpIdBaseUrl, doi);
        assert candidateKey == keys[counter];
        assert |doi| > 0;
        if !taken(candidateKey) {
          id := doi;
        } else {
          assert forall i :: 0 <= i < counter + 1 ==> taken(keys[i]);
        }
        counter := counter + 1;
      }
      if id == "" {
        return None;
      }
      DmpRecord.FirstFreeExact(taken, keys, counter - 1);
      return Some(candidateKey);
    }

    /**
     * `to_nosql_hash`: `PK`, `SK`, the default provenance, `dmp_id` and
     * `versions` written into the metadata, which is returned.
     */
    method ToNosqlHash() returns (r: Result<Hash, RubyError>)
      modifies this
      ensures (r, State()) == DraftRecord.ToNosqlHash(old(State()))
    {
      if key.None? {
        return Failure(NoMethodError);
      }
      metadata := metadata["PK" := JString(key.value.partition)];
      metadata := metadata["SK" := OptString(key.value.sort)];
      if Get(metadata, "dmphub_provenance") == JNull {
        metadata := metadata["dmphub_provenance" := JString(DEFAULT_PROVENANCE)];
      }
      metadata := metadata["dmp_id" := DoiJson(OptString(dmpId))];
      metadata := metadata["versions" := JArray(DmpKeys.VersionsForNosql(landingPageUrl, versions))];
      return Success(metadata);
    }

    /** `to_json`: `dmp_id` written into the metadata, which is returned. */
    method ToJson() returns (r: Hash)
      modifies this
      ensures (r, State()) == DraftRecord.ToJson(doiBaseUrl, old(State()))
    {
      var identifier := doiBaseUrl + if dmpId.Some? then dmpId.value else "";
      metadata := metadata["dmp_id" := DoiJson(JString(identifier))];
      return metadata;
    }
  }

  /** The metadata entries of the keys already visited. */
  function MetadataDone(h: Hash, todo: set<string>): Hash {
    map k | k in h && k !in todo && MetadataKey(k) :: h[k]
  }

  /** The extras entries of the keys already visited. */
  function ExtrasDone(h: Hash, todo: set<string>): Hash {
    map k | k in h && k !in todo && ExtrasKey(k) :: h[k]
  }

  /** Visiting `k` adds its entry to metadata or to extras, or to neither. */
  lemma SplitStep(m: Hash, e: Hash, h: Hash, todo: set<string>, k: string)
    requires k in todo && todo <= h.Keys
    ensures MetadataKey(k) ==> m + MetadataDone(h, todo - {k}) == (m + MetadataDone(h, todo))[k := h[k]]
    ensures !MetadataKey(k) ==> MetadataDone(h, todo - {k}) == MetadataDone(h, todo)
    ensures ExtrasKey(k) ==> e + ExtrasDone(h, todo - {k}) == (e + ExtrasDone(h, todo))[k := h[k]]
    ensures !ExtrasKey(k) ==> ExtrasDone(h, todo - {k}) == ExtrasDone(h, todo)
    ensures MetadataKey(k) <==> !Skipped(k) && !StartsWith(k, DmpRecord.DMPHUB_PREFIX)
    ensures ExtrasKey(k) <==> !Skipped(k) && k != DmpRecord.VERSIONS_KEY && k != DmpRecord.MODIFICATIONS_KEY && StartsWith(k, DmpRecord.DMPHUB_PREFIX)
    ensures k == DmpRecord.VERSIONS_KEY || k == DmpRecord.MODIFICATIONS_KEY ==> StartsWith(k, DmpRecord.DMPHUB_PREFIX) && !Skipped(k)
  {
    if k == DmpRecord.VERSIONS_KEY || k == DmpRecord.MODIFICATIONS_KEY {
      assert StartsWith(k, DmpRecord.DMPHUB_PREFIX);
    }
  }

  /** All keys visited: the entries are the split of the whole record. */
  lemma SplitDone(h: Hash)
    ensures MetadataDone(h, {}) == MetadataOf(h)
    ensures ExtrasDone(h, {}) == ExtrasOf(h)
  {
  }
}
