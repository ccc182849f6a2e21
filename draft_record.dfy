/**
 * What the earlier draft item `NosqlAdapter::AwsDynamodbItem`
 * (app/services/nosql_adapter/aws_dynamodb_item.rb) does to its state, as
 * functions from the old state to the new one. The class in draft_item.dfy
 * runs the same steps on its fields and is proved to match them.
 *
 * The draft's `_from_hash` hands `_identifiers_from_hash` its own scratch
 * Hash rather than the record, so no key is ever read from a record: every
 * draft item is a new one, with a freshly generated key.
 */
module DraftRecord {
  import opened Wrappers
  import opened RubyString
  import opened RubyJson
  import opened Ordering
  import opened DraftKeys
  import DmpKeys
  import DmpRecord
  import AdapterItem

  /** The instance variables of a draft item. */
  datatype DraftState = DraftState(
    metadata: Hash,
    extras: Hash,
    versions: seq<string>,
    modifications: Json,          // nil until a `dmphub_modifications` entry is read
    key: Option<DmpKeys.Key>,     // nil until `_generate_key` sets it
    dmpId: Option<string>,
    errors: seq<string>,
    landingPageUrl: string)       // nil, which interpolates as nothing, until `initialize` sets it

  /** The state `initialize` hands to `_from_hash`. */
  function InitialState(): DraftState {
    DraftState(map[], map[], [], JNull, None, None, [], "")
  }

  /**
   * The draft's own inputs: the `_dmp_id_base_url` its key helpers use and
   * the `dmps_url` route helper that gives the landing page of a DMP-ID.
   */
  datatype Config = Config(dmpIdBaseUrl: string, landingUrl: string -> string)

  // ---------------------------------------------------------------------------
  // _from_hash
  // ---------------------------------------------------------------------------

  /** The entries `_from_hash` skips: `%w[PK SK dmp_id]`. */
  predicate Skipped(k: string) {
    k == "PK" || k == "SK" || k == "dmp_id"
  }

  /** The entries that go to `@metadata`. */
  predicate MetadataKey(k: string) {
    !Skipped(k) && !StartsWith(k, DmpRecord.DMPHUB_PREFIX)
  }

  /** The entries that go to `@extras`. */
  predicate ExtrasKey(k: string) {
    !Skipped(k) && StartsWith(k, DmpRecord.DMPHUB_PREFIX) && k != DmpRecord.VERSIONS_KEY && k != DmpRecord.MODIFICATIONS_KEY
  }

  function MetadataOf(h: Hash): Hash {
    map k | k in h && MetadataKey(k) :: h[k]
  }

  function ExtrasOf(h: Hash): Hash {
    map k | k in h && ExtrasKey(k) :: h[k]
  }

  /**
   * Every entry of the record that is not skipped and is neither the versions
   * nor the modifications lands in exactly one of metadata and extras, with
   * its value; only `PK`, `SK`, `dmp_id` and the `dmphub_` keys stay out of
   * the metadata.
   */
  lemma SplitIsPartition(h: Hash, k: string)
    requires k in h
    ensures k in MetadataOf(h) <==> !Skipped(k) && !StartsWith(k, DmpRecord.DMPHUB_PREFIX)
    ensures k in MetadataOf(h) ==> MetadataOf(h)[k] == h[k]
    ensures k in ExtrasOf(h) ==> ExtrasOf(h)[k] == h[k] && StartsWith(k, DmpRecord.DMPHUB_PREFIX)
    ensures !(k in MetadataOf(h) && k in ExtrasOf(h))
    ensures k in MetadataOf(h) || k in ExtrasOf(h) || Skipped(k) || k == DmpRecord.VERSIONS_KEY || k == DmpRecord.MODIFICATIONS_KEY
  {
    if k == DmpRecord.VERSIONS_KEY || k == DmpRecord.MODIFICATIONS_KEY {
      assert StartsWith(k, DmpRecord.DMPHUB_PREFIX);
    }
  }

  /** `{ key: {}, metadata: {}, versions: [], modifications: [], extras: [] }` */
  const SCRATCH: Hash := map[
    "key" := JObject(map[]), "metadata" := JObject(map[]), "versions" := JArray([]),
    "modifications" := JArray([]), "extras" := JArray([])]

  /**
   * `_identifiers_from_hash(**args)` in the states the draft has: `@key` is
   * nil until `_generate_key` gives it a non-empty partition key. Without
   * `PK` and `dmp_id` it answers false; with a key it answers true; with a
   * nil `@key` every path past line 137 raises NoMethodError (`nil[]=`,
   * `nil.fetch`, or `empty?` on a value that has none).
   */
  function IdentifiersFromHash(key: Option<DmpKeys.Key>, args: Hash): (r: Result<bool, RubyError>)
    requires key.None? || DmpKeys.HasKey(key)
    ensures r == Success(false) <==> IsNil(args, "PK") && IsNil(args, "dmp_id")
    ensures r == Success(true) <==> !(IsNil(args, "PK") && IsNil(args, "dmp_id")) && key.Some?
    ensures r.Failure? ==> r.error == NoMethodError
  {
    if IsNil(args, "PK") && IsNil(args, "dmp_id") then Success(false)
    else if DmpKeys.HasKey(key) then Success(true)
    else Failure(NoMethodError)
  }

  /** The scratch Hash has neither `PK` nor `dmp_id`: the call answers false whatever the key. */
  lemma IdentifiersOfScratch(key: Option<DmpKeys.Key>)
    requires key.None? || DmpKeys.HasKey(key)
    ensures IdentifiersFromHash(key, SCRATCH) == Success(false)
  {
  }

  /**
   * The `hash.each` loop of `_from_hash` and the sort after it: metadata and
   * extras gain the split entries, versions come from `dmphub_versions` when
   * there is one, sorted descending, and modifications are copied.
   */
  function Split(s: DraftState, h: Hash): (r: Result<DraftState, RubyError>)
    ensures var vs := if DmpRecord.VERSIONS_KEY in h then DmpRecord.VersionsFrom(h[DmpRecord.VERSIONS_KEY], Get(h, "modified")) else Success(s.versions);
      && (r.Success? <==> vs.Success?)
      && (r.Failure? ==> r.error == vs.error)
      && (r.Success? ==> r.value == s.(
            metadata := s.metadata + MetadataOf(h),
            extras := s.extras + ExtrasOf(h),
            versions := SortDescending(vs.value),
            modifications := if DmpRecord.MODIFICATIONS_KEY in h then h[DmpRecord.MODIFICATIONS_KEY] else s.modifications))
  {
    var versions :- if DmpRecord.VERSIONS_KEY in h then DmpRecord.VersionsFrom(h[DmpRecord.VERSIONS_KEY], Get(h, "modified")) else Success(s.versions);
    Success(s.(
      metadata := s.metadata + MetadataOf(h),
      extras := s.extras + ExtrasOf(h),
      versions := SortDescending(versions),
      modifications := if DmpRecord.MODIFICATIONS_KEY in h then h[DmpRecord.MODIFICATIONS_KEY] else s.modifications))
  }

  /**
   * `_from_hash(hash:)`: split the record, sort the versions descending,
   * consult the identifiers with the scratch Hash, and generate a key when
   * there is none (or an empty one and no versions).
   */
  function FromHash(baseUrl: string, shoulder: string, taken: string -> bool, s: DraftState, h: Hash, draws: seq<DmpKeys.Draw>): (r: Result<DraftState, RubyError>)
    requires |draws| >= DmpRecord.ATTEMPTS
    requires s.key.None? || DmpKeys.HasKey(s.key)
    ensures r.Success? ==> r.value.key.Some? && (r.value.key.value.partition != "" || |r.value.versions| > 0)
  {
    var parsed :- Split(s, h);
    var _ :- IdentifiersFromHash(parsed.key, SCRATCH);
    if parsed.key.None? || (parsed.key.value.partition == "" && |parsed.versions| == 0) then
      GenerateKey(baseUrl, shoulder, taken, parsed, draws)
    else Success(parsed)
  }

  /**
   * What `_from_hash` leaves: metadata and extras hold the split entries, the
   * versions are sorted descending and are a permutation of what was read,
   * modifications are copied as they are, and there is a key and a DMP-ID.
   */
  lemma FromHashSplits(baseUrl: string, shoulder: string, taken: string -> bool, s: DraftState, h: Hash, draws: seq<DmpKeys.Draw>)
    requires |draws| >= DmpRecord.ATTEMPTS
    requires s.key.None? || DmpKeys.HasKey(s.key)
    requires FromHash(baseUrl, shoulder, taken, s, h, draws).Success?
    ensures var t := FromHash(baseUrl, shoulder, taken, s, h, draws).value;
      && t.metadata == s.metadata + MetadataOf(h)
      && t.extras == s.extras + ExtrasOf(h)
      && SortedDescending(t.versions)
      && multiset(t.versions) == multiset(if DmpRecord.VERSIONS_KEY in h then DmpRecord.VersionsFrom(h[DmpRecord.VERSIONS_KEY], Get(h, "modified")).value else s.versions)
      && t.modifications == (if DmpRecord.MODIFICATIONS_KEY in h then h[DmpRecord.MODIFICATIONS_KEY] else s.modifications)
      && DmpKeys.HasKey(t.key) && (s.key.None? ==> t.dmpId.Some?)
      && t.errors == s.errors && t.landingPageUrl == s.landingPageUrl
  {
    var versions := if DmpRecord.VERSIONS_KEY in h then DmpRecord.VersionsFrom(h[DmpRecord.VERSIONS_KEY], Get(h, "modified")).value else s.versions;
    SortDescendingSorted(versions);
  }

  // ---------------------------------------------------------------------------
  // _generate_key
  // ---------------------------------------------------------------------------

  /** The partition keys of the eleven attempts, in order. */
  function CandidateKeys(baseUrl: string, shoulder: string, draws: seq<DmpKeys.Draw>): (r: seq<string>)
    requires |draws| >= DmpRecord.ATTEMPTS
    ensures |r| == DmpRecord.ATTEMPTS
    ensures forall i :: 0 <= i < DmpRecord.ATTEMPTS ==> r[i] == CandidateKey(baseUrl, shoulder, draws[i])
  {
    seq(DmpRecord.ATTEMPTS, i requires 0 <= i < DmpRecord.ATTEMPTS => CandidateKey(baseUrl, shoulder, draws[i]))
  }

  /**
   * `_generate_key`: an item with a non-empty partition key keeps it;
   * otherwise the first free candidate of the eleven attempts becomes the
   * key, with `VERSION#latest`, and the DMP-ID is read back from it.
   */
  function GenerateKey(baseUrl: string, shoulder: string, taken: string -> bool, s: DraftState, draws: seq<DmpKeys.Draw>): (r: Result<DraftState, RubyError>)
    requires |draws| >= DmpRecord.ATTEMPTS
    ensures r.Success? ==> DmpKeys.HasKey(r.value.key)
    ensures r.Success? && !DmpKeys.HasKey(s.key) ==>
      r.value.key.value.sort == Some(DmpKeys.SORT_KEY_DMP_LATEST_VERSION) && r.value.dmpId.Some?
    ensures r.Success? ==> r.value.(key := s.key, dmpId := s.dmpId) == s
  {
    if DmpKeys.HasKey(s.key) then Success(s)
    else
      var keys := CandidateKeys(baseUrl, shoulder, draws);
      match DmpRecord.FirstFree(taken, keys)
      case None => Failure(NoSqlItemError(AdapterItem.MSG_UNABLE_TO_ACQUIRE_NEW_ID))
      case Some(i) =>
        var key := Some(DmpKeys.Key(keys[i], Some(DmpKeys.SORT_KEY_DMP_LATEST_VERSION)));
        Success(s.(key := key, dmpId := KeyToDmpId(baseUrl, key)))
  }

  /** An existing non-empty key is returned untouched. */
  lemma GenerateKeyKeepsKey(baseUrl: string, shoulder: string, taken: string -> bool, s: DraftState, draws: seq<DmpKeys.Draw>)
    requires |draws| >= DmpRecord.ATTEMPTS && DmpKeys.HasKey(s.key)
    ensures GenerateKey(baseUrl, shoulder, taken, s, draws) == Success(s)
  {
  }

  /**
   * A new key comes from the first of the eleven attempts whose partition key
   * is free, with `VERSION#latest`, and the DMP-ID is read back from it.
   */
  lemma GenerateKeyNew(baseUrl: string, shoulder: string, taken: string -> bool, s: DraftState, draws: seq<DmpKeys.Draw>)
    requires |draws| >= DmpRecord.ATTEMPTS && !DmpKeys.HasKey(s.key)
    requires GenerateKey(baseUrl, shoulder, taken, s, draws).Success?
    ensures var t := GenerateKey(baseUrl, shoulder, taken, s, draws).value;
      exists i :: 0 <= i < DmpRecord.ATTEMPTS
        && t.key == Some(DmpKeys.Key(CandidateKey(baseUrl, shoulder, draws[i]), Some(DmpKeys.SORT_KEY_DMP_LATEST_VERSION)))
        && t.dmpId == KeyToDmpId(baseUrl, t.key)
        && !taken(t.key.value.partition)
        && (forall j :: 0 <= j < i ==> taken(CandidateKey(baseUrl, shoulder, draws[j])))
  {
    var keys := CandidateKeys(baseUrl, shoulder, draws);
    var i := DmpRecord.FirstFree(taken, keys).value;
    assert forall j :: 0 <= j < i ==> taken(keys[j]);
  }

  /** When all eleven partition keys are taken, `_generate_key` raises NoSqlItemError. */
  lemma GenerateKeyExhausted(baseUrl: string, shoulder: string, taken: string -> bool, s: DraftState, draws: seq<DmpKeys.Draw>)
    requires |draws| >= DmpRecord.ATTEMPTS && !DmpKeys.HasKey(s.key)
    ensures GenerateKey(baseUrl, shoulder, taken, s, draws).Failure?
        <==> forall i :: 0 <= i < DmpRecord.ATTEMPTS ==> taken(CandidateKey(baseUrl, shoulder, draws[i]))
    ensures GenerateKey(baseUrl, shoulder, taken, s, draws).Failure? ==>
      GenerateKey(baseUrl, shoulder, taken, s, draws).error == NoSqlItemError(AdapterItem.MSG_UNABLE_TO_ACQUIRE_NEW_ID)
  {
    var keys := CandidateKeys(baseUrl, shoulder, draws);
    assert forall i :: 0 <= i < DmpRecord.ATTEMPTS ==> keys[i] == CandidateKey(baseUrl, shoulder, draws[i]);
  }

  /**
   * The draft's adapter answers false for any key that is not a Hash, and
   * `_generate_key` asks with a String: the first candidate always wins.
   */
  lemma GenerateKeyFirstCandidate(baseUrl: string, shoulder: string, s: DraftState, draws: seq<DmpKeys.Draw>)
    requires |draws| >= DmpRecord.ATTEMPTS && !DmpKeys.HasKey(s.key)
    ensures var t := GenerateKey(baseUrl, shoulder, k => false, s, draws);
      t.Success? && t.value.key == Some(DmpKeys.Key(CandidateKey(baseUrl, shoulder, draws[0]), Some(DmpKeys.SORT_KEY_DMP_LATEST_VERSION)))
  {
  }

  /**
   * With a base URL of the form `<domain>/` and a well-formed candidate, the
   * partition key is `DMP#<domain>/<candidate>` and the DMP-ID read back from
   * it is the candidate.
   */
  lemma CandidateKeyRoundTrip(domain: string, shoulder: string, d: DmpKeys.Draw)
    requires DmpKeys.DomainOk(domain)
    requires var c := DmpKeys.Candidate(shoulder, d); DmpKeys.IdOk(domain, c) && !Contains(c, "doi:")
    ensures var c := DmpKeys.Candidate(shoulder, d);
      var key := Some(DmpKeys.Key(CandidateKey(domain + "/", shoulder, d), Some(DmpKeys.SORT_KEY_DMP_LATEST_VERSION)));
      key.value.partition == DmpKeys.PARTITION_KEY_DMP_PREFIX + domain + "/" + c && KeyToDmpId(domain + "/", key) == Some(c)
  {
    var c := DmpKeys.Candidate(shoulder, d);
    PartitionKeyRoundTrip(domain, c);
    KeyToDmpIdRoundTrip(domain, c, Some(DmpKeys.SORT_KEY_DMP_LATEST_VERSION));
  }

  // ---------------------------------------------------------------------------
  // initialize
  // ---------------------------------------------------------------------------

  /**
   * `AwsDynamodbItem.new(**args)`: the base guards, `_from_hash` on the
   * initial state, then the landing page URL of the new DMP-ID.
   */
  function NewItem(env: AdapterItem.Env, cfg: Config, taken: string -> bool, draws: seq<DmpKeys.Draw>, args: AdapterItem.Args): (r: Result<DraftState, RubyError>)
    requires |draws| >= DmpRecord.ATTEMPTS
    ensures AdapterItem.ItemGuard(env, args).Some? ==> r == Failure(AdapterItem.ItemGuard(env, args).value)
    ensures r.Success? ==> r.value.dmpId.Some? && r.value.landingPageUrl == cfg.landingUrl(r.value.dmpId.value)
  {
    match AdapterItem.ItemGuard(env, args)
    case Some(e) => Failure(e)
    case None =>
      var t :- FromHash(cfg.dmpIdBaseUrl, env.doiShoulder.value, taken, InitialState(), args.record, draws);
      FromHashSplits(cfg.dmpIdBaseUrl, env.doiShoulder.value, taken, InitialState(), args.record, draws);
      Success(t.(landingPageUrl := cfg.landingUrl(t.dmpId.value)))
  }

  /**
   * A new draft item holds the split of its record, versions sorted
   * descending, no errors, and a key generated afresh: the first free
   * candidate, with `VERSION#latest`, whatever `PK` or `SK` the record had.
   */
  lemma NewItemContents(env: AdapterItem.Env, cfg: Config, taken: string -> bool, draws: seq<DmpKeys.Draw>, args: AdapterItem.Args)
    requires |draws| >= DmpRecord.ATTEMPTS
    requires NewItem(env, cfg, taken, draws, args).Success?
    ensures var t := NewItem(env, cfg, taken, draws, args).value;
      && t.metadata == MetadataOf(args.record)
      && t.extras == ExtrasOf(args.record)
      && SortedDescending(t.versions)
      && t.errors == []
      && (exists i :: 0 <= i < DmpRecord.ATTEMPTS
            && t.key == Some(DmpKeys.Key(CandidateKey(cfg.dmpIdBaseUrl, env.doiShoulder.value, draws[i]), Some(DmpKeys.SORT_KEY_DMP_LATEST_VERSION)))
            && !taken(t.key.value.partition))
      && t.dmpId == KeyToDmpId(cfg.dmpIdBaseUrl, t.key)
  {
    var f := FromHash(cfg.dmpIdBaseUrl, env.doiShoulder.value, taken, InitialState(), args.record, draws).value;
    FromHashNew(cfg.dmpIdBaseUrl, env.doiShoulder.value, taken, args.record, draws);
    assert NewItem(env, cfg, taken, draws, args).value == f.(landingPageUrl := cfg.landingUrl(f.dmpId.value));
  }

  /** `_from_hash` on the initial state: the split, and a key from the first free candidate. */
  lemma FromHashNew(baseUrl: string, shoulder: string, taken: string -> bool, args: Hash, draws: seq<DmpKeys.Draw>)
    requires |draws| >= DmpRecord.ATTEMPTS
    requires FromHash(baseUrl, shoulder, taken, InitialState(), args, draws).Success?
    ensures var t := FromHash(baseUrl, shoulder, taken, InitialState(), args, draws).value;
      && t.metadata == MetadataOf(args)
      && t.extras == ExtrasOf(args)
      && SortedDescending(t.versions)
      && t.errors == []
      && (exists i :: 0 <= i < DmpRecord.ATTEMPTS
            && t.key == Some(DmpKeys.Key(CandidateKey(baseUrl, shoulder, draws[i]), Some(DmpKeys.SORT_KEY_DMP_LATEST_VERSION)))
            && !taken(t.key.value.partition))
      && t.dmpId == KeyToDmpId(baseUrl, t.key)
  {
    var s := InitialState();
    assert Split(s, args).Success?;
    FromHashGenerates(baseUrl, shoulder, taken, args, draws);
    NewSplit(args);
    GenerateKeyNew(baseUrl, shoulder, taken, Split(s, args).value, draws);
  }

  /** Helper for FromHashNew: what the split of a new item's record leaves. */
  lemma NewSplit(args: Hash)
    requires Split(InitialState(), args).Success?
    ensures var t := Split(InitialState(), args).value;
      && t.metadata == MetadataOf(args)
      && t.extras == ExtrasOf(args)
      && SortedDescending(t.versions)
      && t.errors == []
  {
    var s := InitialState();
    var parsed := Split(s, args).value;
    SortDescendingSorted(if DmpRecord.VERSIONS_KEY in args then DmpRecord.VersionsFrom(args[DmpRecord.VERSIONS_KEY], Get(args, "modified")).value else []);
    assert parsed.metadata == s.metadata + MetadataOf(args) == MetadataOf(args);
    assert parsed.extras == s.extras + ExtrasOf(args) == ExtrasOf(args);
  }

  /** On the initial state `_from_hash` always ends in `_generate_key`. */
  lemma FromHashGenerates(baseUrl: string, shoulder: string, taken: string -> bool, args: Hash, draws: seq<DmpKeys.Draw>)
    requires |draws| >= DmpRecord.ATTEMPTS
    requires Split(InitialState(), args).Success?
    ensures FromHash(baseUrl, shoulder, taken, InitialState(), args, draws)
         == GenerateKey(baseUrl, shoulder, taken, Split(InitialState(), args).value, draws)
  {
    var parsed := Split(InitialState(), args).value;
    assert parsed.key.None?;
    IdentifiersOfScratch(None);
  }

  // ---------------------------------------------------------------------------
  // to_nosql_hash and to_json
  // ---------------------------------------------------------------------------

  const DEFAULT_PROVENANCE: string := "dmsp-prototype"

  /** `{ type: 'doi', identifier: }` with the given identifier. */
  function DoiJson(identifier: Json): Json {
    JObject(map["type" := JString("doi"), "identifier" := identifier])
  }

  /**
   * `to_nosql_hash`: `PK`, `SK`, a default provenance, `dmp_id` and
   * `versions` written into the metadata itself (`hash = @metadata`), which
   * is returned. A nil `@key` raises NoMethodError at `@key[:partion_key]`.
   */
  function ToNosqlHash(s: DraftState): (r: (Result<Hash, RubyError>, DraftState))
    ensures r.0.Failure? <==> s.key.None?
    ensures r.0.Failure? ==> r.0.error == NoMethodError && r.1 == s
    ensures r.0.Success? ==> r.1 == s.(metadata := r.0.value)
  {
    if s.key.None? then (Failure(NoMethodError), s)
    else
      var h := s.metadata["PK" := JString(s.key.value.partition)]["SK" := OptString(s.key.value.sort)];
      var h := if Get(h, "dmphub_provenance") == JNull then h["dmphub_provenance" := JString(DEFAULT_PROVENANCE)] else h;
      var h := h["dmp_id" := DoiJson(OptString(s.dmpId))];
      var h := h["versions" := JArray(DmpKeys.VersionsForNosql(s.landingPageUrl, s.versions))];
      (Success(h), s.(metadata := h))
  }

  /** The keys `to_nosql_hash` writes. */
  predicate Written(k: string) {
    k in {"PK", "SK", "dmphub_provenance", "dmp_id", "versions"}
  }

  /**
   * The output of `to_nosql_hash`: `PK` and `SK` are the key, a non-nil
   * provenance is kept and a nil or missing one becomes `dmsp-prototype`,
   * `dmp_id` names the DMP-ID, `versions` holds one `{timestamp, url}` per
   * version in order, and every other metadata entry is carried unchanged.
   */
  lemma ToNosqlHashFields(s: DraftState)
    requires s.key.Some?
    ensures var h := ToNosqlHash(s).0.value;
      && h.Keys == s.metadata.Keys + {"PK", "SK", "dmphub_provenance", "dmp_id", "versions"}
      && h["PK"] == JString(s.key.value.partition)
      && h["SK"] == OptString(s.key.value.sort)
      && h["dmphub_provenance"] == (if Get(s.metadata, "dmphub_provenance") == JNull then JString(DEFAULT_PROVENANCE) else s.metadata["dmphub_provenance"])
      && h["dmp_id"] == DoiJson(OptString(s.dmpId))
      && h["versions"].JArray? && |h["versions"].items| == |s.versions|
      && (forall i :: 0 <= i < |s.versions| ==>
            h["versions"].items[i] == JObject(map["timestamp" := JString(s.versions[i]),
                                                 "url" := JString(s.landingPageUrl + "?version=" + s.versions[i])]))
      && (forall k :: k in s.metadata && !Written(k) ==> h[k] == s.metadata[k])
  {
    var vs := DmpKeys.VersionsForNosql(s.landingPageUrl, s.versions);
    forall i | 0 <= i < |s.versions|
      ensures vs[i] == JObject(map["timestamp" := JString(s.versions[i]), "url" := JString(s.landingPageUrl + "?version=" + s.versions[i])])
    {
    }
  }

  /**
   * A draft item's own output, handed back with String keys as DynamoDB
   * returns it, passes the guards: the `'dmp_id'` it holds is not
   * `args[:dmp_id]`. The item rebuilt from it does not get its key back,
   * since `_from_hash` skips `PK` and `SK` and then generates a fresh key;
   * its versions, written under `versions` rather than `dmphub_versions`,
   * land in the metadata, and its provenance in the extras.
   */
  lemma NosqlHashRebuiltAfresh(env: AdapterItem.Env, cfg: Config, taken: string -> bool, draws: seq<DmpKeys.Draw>, s: DraftState, out: Hash)
    requires |draws| >= DmpRecord.ATTEMPTS && s.key.Some? && ToNosqlHash(s).0 == Success(out)
    requires env.doiBaseUrl.Some? && env.doiBaseUrl.value != "" && env.doiShoulder.Some? && env.doiShoulder.value != ""
    ensures AdapterItem.ItemGuard(env, AdapterItem.Args(out, JNull)).None?
    ensures var n := NewItem(env, cfg, taken, draws, AdapterItem.Args(out, JNull));
      n.Success? ==>
        && "versions" in n.value.metadata && n.value.metadata["versions"] == Get(out, "versions")
        && "dmphub_provenance" in n.value.extras && n.value.extras["dmphub_provenance"] == Get(out, "dmphub_provenance")
        && (DmpRecord.VERSIONS_KEY !in s.metadata ==> n.value.versions == [])
        && (exists i :: 0 <= i < DmpRecord.ATTEMPTS
              && n.value.key == Some(DmpKeys.Key(CandidateKey(cfg.dmpIdBaseUrl, env.doiShoulder.value, draws[i]), Some(DmpKeys.SORT_KEY_DMP_LATEST_VERSION))))
  {
    ToNosqlHashFields(s);
    assert "versions" in out && "dmphub_provenance" in out;
    assert DmpRecord.VERSIONS_KEY in out ==> DmpRecord.VERSIONS_KEY in s.metadata;
    var args := AdapterItem.Args(out, JNull);
    if NewItem(env, cfg, taken, draws, args).Success? {
      RebuiltRecord(env, cfg, taken, draws, out);
    }
  }

  /** What a new item rebuilt from a record holding `versions` and `dmphub_provenance` keeps of them. */
  lemma RebuiltRecord(env: AdapterItem.Env, cfg: Config, taken: string -> bool, draws: seq<DmpKeys.Draw>, h: Hash)
    requires |draws| >= DmpRecord.ATTEMPTS && "versions" in h && "dmphub_provenance" in h
    requires NewItem(env, cfg, taken, draws, AdapterItem.Args(h, JNull)).Success?
    ensures var t := NewItem(env, cfg, taken, draws, AdapterItem.Args(h, JNull)).value;
      && "versions" in t.metadata && t.metadata["versions"] == h["versions"]
      && "dmphub_provenance" in t.extras && t.extras["dmphub_provenance"] == h["dmphub_provenance"]
      && (DmpRecord.VERSIONS_KEY !in h ==> t.versions == [])
      && (exists i :: 0 <= i < DmpRecord.ATTEMPTS
            && t.key == Some(DmpKeys.Key(CandidateKey(cfg.dmpIdBaseUrl, env.doiShoulder.value, draws[i]), Some(DmpKeys.SORT_KEY_DMP_LATEST_VERSION))))
  {
    var args := AdapterItem.Args(h, JNull);
    NewItemContents(env, cfg, taken, draws, args);
    WrittenKeysSplit();
    if DmpRecord.VERSIONS_KEY !in h {
      NewItemWithoutVersions(env, cfg, taken, draws, args);
    }
  }

  /** Where `_from_hash` puts the keys `to_nosql_hash` writes. */
  lemma WrittenKeysSplit()
    ensures Skipped("PK") && Skipped("SK") && Skipped("dmp_id")
    ensures MetadataKey("versions") && ExtrasKey("dmphub_provenance")
    ensures DmpRecord.VERSIONS_KEY != "versions"
  {
    assert "versions"[..7][0] != DmpRecord.DMPHUB_PREFIX[0];
  }

  /** A record without `dmphub_versions` gives a new item without versions. */
  lemma NewItemWithoutVersions(env: AdapterItem.Env, cfg: Config, taken: string -> bool, draws: seq<DmpKeys.Draw>, args: AdapterItem.Args)
    requires |draws| >= DmpRecord.ATTEMPTS
    requires NewItem(env, cfg, taken, draws, args).Success? && DmpRecord.VERSIONS_KEY !in args.record
    ensures NewItem(env, cfg, taken, draws, args).value.versions == []
  {
    var f := FromHash(cfg.dmpIdBaseUrl, env.doiShoulder.value, taken, InitialState(), args.record, draws).value;
    FromHashSplits(cfg.dmpIdBaseUrl, env.doiShoulder.value, taken, InitialState(), args.record, draws);
    assert multiset(f.versions) == multiset{};
  }

  /**
   * `to_json`: `dmp_id` written into the metadata with the DOI base URL in
   * front of the DMP-ID (nil interpolating as nothing); the metadata is
   * returned.
   */
  function ToJson(doiBaseUrl: string, s: DraftState): (r: (Hash, DraftState))
    ensures r.1 == s.(metadata := r.0)
    ensures r.0.Keys == s.metadata.Keys + {"dmp_id"}
    ensures forall k :: k in s.metadata && k != "dmp_id" ==> r.0[k] == s.metadata[k]
    ensures r.0["dmp_id"] == DoiJson(JString(doiBaseUrl + if s.dmpId.Some? then s.dmpId.value else ""))
  {
    var h := s.metadata["dmp_id" := DoiJson(JString(doiBaseUrl + if s.dmpId.Some? then s.dmpId.value else ""))];
    (h, s.(metadata := h))
  }
}
