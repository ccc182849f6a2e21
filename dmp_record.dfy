/**
 * What `Nosql::DynamodbDmpItem` (app/services/nosql/dynamodb_dmp_item.rb)
 * does to its state, as functions from the old state to the new one: the
 * split of an incoming record in `_from_hash`, the key extraction of
 * `_identifiers_from_hash`, the bounded search of `_generate_key` and the two
 * serialisers. The class in dmp_item.dfy runs the same steps on its fields and
 * is proved to match these functions; the lemmas here state what the steps
 * promise.
 */
module DmpRecord {
  import opened Wrappers
  import opened RubyString
  import opened RubyJson
  import opened Ordering
  import opened DmpKeys
  import NosqlItem

  /** The instance variables of an item. */
  datatype ItemState = ItemState(
    metadata: Hash,        // the RDA Common Standard part of the record
    extras: Hash,          // the other `dmphub_*` entries
    versions: seq<string>, // version timestamps, greatest first
    modifications: Json,   // `dmphub_modifications`, kept as it came
    key: Option<Key>,      // nil after a `dmp_id` without an identifier
    dmpId: Option<string>)

  /** The state `initialize` hands to `_from_hash`. */
  function InitialState(): ItemState {
    ItemState(map[], map[], [], JArray([]), Some(NosqlItem.EMPTY_KEY), None)
  }

  /** The environment variables the constructor reads. */
  datatype Env = Env(doiBaseDomain: Option<string>, doiShoulder: Option<string>, railsHost: Option<string>)

  /**
   * The exception `initialize` raises before parsing: an unset or empty
   * `DOI_BASE_DOMAIN`, then `DOI_SHOULDER`, then the base class's guards.
   */
  function ConstructionError(env: Env, hasAdapter: bool): (r: Option<RubyError>)
    ensures r.None? <==>
      && env.doiBaseDomain.Some? && env.doiBaseDomain.value != ""
      && env.doiShoulder.Some? && env.doiShoulder.value != ""
      && env.railsHost.Some? && hasAdapter
    ensures env.doiBaseDomain.None? || env.doiBaseDomain == Some("") ==> r == Some(ItemError(MSG_NO_DOI_BASE_DOMAIN))
  {
    if env.doiBaseDomain.None? || env.doiBaseDomain.value == "" then Some(ItemError(MSG_NO_DOI_BASE_DOMAIN))
    else if env.doiShoulder.None? || env.doiShoulder.value == "" then Some(ItemError(MSG_NO_DOI_SHOULDER))
    else NosqlItem.ItemGuard(env.railsHost, hasAdapter)
  }

  // ---------------------------------------------------------------------------
  // _from_hash
  // ---------------------------------------------------------------------------

  const VERSIONS_KEY: string := "dmphub_versions"
  const MODIFICATIONS_KEY: string := "dmphub_modifications"
  const DMPHUB_PREFIX: string := "dmphub_"

  /** The entries `_from_hash` skips: `%w[adapter PK SK dmp_id]`. */
  predicate Skipped(k: string) {
    k == "adapter" || k == "PK" || k == "SK" || k == "dmp_id"
  }

  /** The entries that go to `@metadata`. */
  predicate MetadataKey(k: string) {
    !Skipped(k) && !StartsWith(k, DMPHUB_PREFIX)
  }

  /** The entries that go to `@extras`. */
  predicate ExtrasKey(k: string) {
    !Skipped(k) && StartsWith(k, DMPHUB_PREFIX) && k != VERSIONS_KEY && k != MODIFICATIONS_KEY
  }

  function MetadataOf(h: Hash): Hash {
    map k | k in h && MetadataKey(k) :: h[k]
  }

  function ExtrasOf(h: Hash): Hash {
    map k | k in h && ExtrasKey(k) :: h[k]
  }

  /**
   * Every entry of the record that is not skipped and is neither the versions
   * nor the modifications lands in exactly one of metadata and extras, with
   * its value; the skipped keys and the `dmphub_` keys never reach metadata.
   */
  lemma SplitIsPartition(h: Hash, k: string)
    requires k in h
    ensures k in MetadataOf(h) ==> MetadataOf(h)[k] == h[k] && !Skipped(k) && !StartsWith(k, DMPHUB_PREFIX)
    ensures k in ExtrasOf(h) ==> ExtrasOf(h)[k] == h[k] && StartsWith(k, DMPHUB_PREFIX)
    ensures !(k in MetadataOf(h) && k in ExtrasOf(h))
    ensures k in MetadataOf(h) || k in ExtrasOf(h) || Skipped(k) || k == VERSIONS_KEY || k == MODIFICATIONS_KEY
  {
    if k == VERSIONS_KEY || k == MODIFICATIONS_KEY {
      assert StartsWith(k, DMPHUB_PREFIX);
    }
  }

  /** `val.map { |v| v['timestamp'] }`, raising at the first entry that cannot be indexed. */
  function Timestamps(items: seq<Json>): (r: Result<seq<Json>, RubyError>)
    ensures r.Success? ==> |r.value| == |items|
    ensures r.Success? ==> forall i :: 0 <= i < |items| ==> Index(items[i], "timestamp") == Success(r.value[i])
    ensures r.Failure? <==> exists i :: 0 <= i < |items| && Index(items[i], "timestamp").Failure?
  {
    if |items| == 0 then Success([])
    else
      var first :- Index(items[0], "timestamp");
      var rest :- Timestamps(items[1..]);
      assert forall i :: 1 <= i < |items| ==> items[i] == items[1..][i - 1];
      Success([first] + rest)
  }

  /** The Strings of a list of JSON values, or nil when one of them is not a String. */
  function AllStrings(vs: seq<Json>): (r: Option<seq<string>>)
    ensures r.Some? <==> forall i :: 0 <= i < |vs| ==> vs[i].JString?
    ensures r.Some? ==> |r.value| == |vs| && forall i :: 0 <= i < |vs| ==> vs[i] == JString(r.value[i])
  {
    if |vs| == 0 then Some([])
    else if !vs[0].JString? then None
    else
      match AllStrings(vs[1..])
      case None => None
      case Some(rest) => Some([vs[0].s] + rest)
  }

  /**
   * The `dmphub_versions` branch: the timestamps of the entries (none unless
   * the value is an Array), plus the record's `modified` unless it is already
   * there. Every timestamp must be a String for the later sort to succeed.
   */
  function VersionsFrom(val: Json, modified: Json): (r: Result<seq<string>, RubyError>)
    ensures r.Success? ==> modified.JString? && modified.s in r.value
  {
    var ts :- if val.JArray? then Timestamps(val.items) else Success([]);
    var all := if modified in ts then ts else ts + [modified];
    match AllStrings(all)
    case None => Failure(ArgumentError)
    case Some(vs) =>
      var i :| 0 <= i < |all| && all[i] == modified;
      assert vs[i] in vs;
      Success(vs)
  }

  /**
   * The versions hold every timestamp, in order, and `modified` exactly once
   * more when it was not among them.
   */
  lemma VersionsFromContents(val: Json, modified: Json)
    requires VersionsFrom(val, modified).Success?
    ensures var vs := VersionsFrom(val, modified).value;
      && modified.JString? && modified.s in vs
      && (val.JArray? ==> forall i :: 0 <= i < |val.items| ==> Index(val.items[i], "timestamp") == Success(JString(vs[i])))
      && |vs| == (if val.JArray? then |val.items| else 0) + (if JString(vs[|vs| - 1]) == modified && modified !in Timestamps(if val.JArray? then val.items else []).value then 1 else 0)
  {
    var ts := (if val.JArray? then Timestamps(val.items) else Success([])).value;
    var all := if modified in ts then ts else ts + [modified];
    var vs := VersionsFrom(val, modified).value;
    assert modified in all;
    var k :| 0 <= k < |all| && all[k] == modified;
    assert vs[k] == modified.s;
    if val.JArray? {
      assert Timestamps(val.items).value == ts;
      forall i | 0 <= i < |val.items| ensures Index(val.items[i], "timestamp") == Success(JString(vs[i])) {
        assert all[i] == ts[i];
      }
    } else {
      assert ts == [];
    }
  }

  /** `args.fetch('dmp_id', {})['identifier']&.gsub(%r{https?://}, '')&.gsub("<domain>/", '')` */
  function IdentifierOf(domain: string, dmpIdJson: Json): (r: Result<Option<string>, RubyError>)
    ensures dmpIdJson.JObject? && "identifier" in dmpIdJson.fields && dmpIdJson.fields["identifier"].JString? ==>
      r == Success(Some(RemoveAll(StripProtocol(dmpIdJson.fields["identifier"].s), domain + "/")))
    ensures dmpIdJson.JObject? && Get(dmpIdJson.fields, "identifier") == JNull ==> r == Success(None)
  {
    var w :- Index(dmpIdJson, "identifier");
    match w
    case JNull => Success(None)
    case JString(s) => Success(Some(RemoveAll(StripProtocol(s), domain + "/")))
    case _ => Failure(NoMethodError)
  }

  /** `@key` and `@dmp_id`, the two variables `_identifiers_from_hash` sets. */
  datatype Ids = Ids(key: Option<Key>, dmpId: Option<string>)

  /**
   * Lines 193-194: the partition key becomes the prefixed `PK` and the sort
   * key the prefixed `SK` (`VERSION#latest` when absent). A `PK` that is not
   * a String leaves a nil partition key, on which line 195 raises; so do an
   * `SK` that is neither nil nor a String, and a nil `@key`.
   */
  function KeyFromPk(domain: string, key: Option<Key>, args: Hash): (r: Result<Key, RubyError>)
    ensures r.Success? ==> key.Some? && Get(args, "PK").JString?
    ensures r.Success? ==> r.value.partition == PrefixedPartitionKey(domain, Get(args, "PK").s)
  {
    if key.None? then Failure(NoMethodError)
    else
      var sk :- NilOrString(Fetch(args, "SK", JString(SORT_KEY_DMP_LATEST_VERSION)));
      match AppendPartitionKeyPrefixing(domain, Get(args, "PK"))
      case None => Failure(NoMethodError)
      case Some(pk) => Success(Key(pk, AppendSortKeyPrefix(sk)))
  }

  /**
   * `_identifiers_from_hash(**args)`: whether a key could be taken from the
   * record, and the new `@key` and `@dmp_id`.
   */
  function IdentifiersFromHash(domain: string, ids: Ids, versions: seq<string>, args: Hash): (r: Result<(bool, Ids), RubyError>)
    ensures (r.Success? && !r.value.0) <==> !HasKey(ids.key) && IsNil(args, "PK") && IsNil(args, "dmp_id")
    ensures r.Success? && !r.value.0 ==> r.value.1 == ids
  {
    if HasKey(ids.key) then Success((true, ids))
    else if IsNil(args, "PK") && IsNil(args, "dmp_id") then Success((false, ids))
    else
      var nilPk :- IsEmpty(Fetch(args, "PK", JString("")));
      var key :- if nilPk then Success(ids.key) else
                   var k :- KeyFromPk(domain, ids.key, args); Success(Some(k));
      if key.None? then Failure(NoMethodError)
      else
        var dmpId := if key.value.partition == "" then ids.dmpId else KeyToDmpId(domain, key);
        if dmpId.Some? then Success((true, Ids(key, dmpId)))
        else
          var fromJson :- IdentifierOf(domain, Fetch(args, "dmp_id", JObject(map[])));
          var version :- DetectVersion(versions, Get(args, "modified"));
          Success((true, Ids(DmpIdAndVersionToKey(domain, fromJson, version), fromJson)))
  }

  /** An item that already has a partition key keeps it, and reports success. */
  lemma IdentifiersKeepExistingKey(domain: string, ids: Ids, versions: seq<string>, args: Hash)
    requires HasKey(ids.key)
    ensures IdentifiersFromHash(domain, ids, versions, args) == Success((true, ids))
  {
  }

  /** Without `PK` and `dmp_id` nothing is set and the answer is false. */
  lemma IdentifiersWithoutIds(domain: string, ids: Ids, versions: seq<string>, args: Hash)
    requires !HasKey(ids.key) && Get(args, "PK") == JNull && Get(args, "dmp_id") == JNull
    ensures IdentifiersFromHash(domain, ids, versions, args) == Success((false, ids))
  {
  }

  /**
   * A non-empty String `PK`: the key is the prefixed `PK` with the prefixed
   * `SK` (or `VERSION#latest`), and the DMP-ID is read back from that key.
   */
  lemma IdentifiersFromPk(domain: string, ids: Ids, versions: seq<string>, args: Hash, pk: string)
    requires !HasKey(ids.key) && ids.key.Some?
    requires Get(args, "PK") == JString(pk) && pk != ""
    requires "SK" !in args || args["SK"].JNull? || args["SK"].JString?
    ensures var r := IdentifiersFromHash(domain, ids, versions, args);
      var key := Key(PrefixedPartitionKey(domain, pk),
                     if "SK" in args then AppendSortKeyPrefix(StringOf(args["SK"])) else Some(SORT_KEY_DMP_LATEST_VERSION));
      r == Success((true, Ids(Some(key), KeyToDmpId(domain, Some(key)))))
  {
    assert IsEmpty(Fetch(args, "PK", JString(""))) == Success(false);
  }

  /**
   * No `PK` but a `dmp_id` Hash with a String identifier: the DMP-ID is the
   * identifier without its protocol and `<domain>/`, and the sort key names
   * the record's `modified` when that is a known version, else latest.
   */
  lemma IdentifiersFromDmpId(domain: string, ids: Ids, versions: seq<string>, args: Hash, identifier: string)
    requires !HasKey(ids.key) && ids.key.Some? && ids.dmpId.None?
    requires "PK" !in args
    requires "dmp_id" in args && args["dmp_id"].JObject? && Get(args["dmp_id"].fields, "identifier") == JString(identifier)
    requires var m := Get(args, "modified"); m.JNull? || m.JString?
    ensures var id := RemoveAll(StripProtocol(identifier), domain + "/");
      var m := Get(args, "modified");
      var sort := if m.JString? && m.s != "" && m.s in versions then AppendSortKeyPrefix(Some(m.s)).value else SORT_KEY_DMP_LATEST_VERSION;
      IdentifiersFromHash(domain, ids, versions, args) == Success((true, Ids(Some(Key(PrefixedPartitionKey(domain, id), Some(sort))), Some(id))))
  {
  }

  /**
   * `_from_hash(hash:)`: split the record, sort the versions descending, take
   * the key, and fill in the DMP-ID from the key when it is still nil.
   */
  function FromHash(domain: string, s: ItemState, h: Hash): (r: Result<ItemState, RubyError>)
    ensures r.Success? && HasKey(r.value.key) ==> r.value.dmpId.Some?
    ensures r.Success? && HasKey(s.key) ==> r.value.key == s.key
  {
    var versions :- if VERSIONS_KEY in h then VersionsFrom(h[VERSIONS_KEY], Get(h, "modified")) else Success(s.versions);
    var parsed := ItemState(
      s.metadata + MetadataOf(h),
      s.extras + ExtrasOf(h),
      SortDescending(versions),
      if MODIFICATIONS_KEY in h then h[MODIFICATIONS_KEY] else s.modifications,
      s.key, s.dmpId);
    var res :- IdentifiersFromHash(domain, Ids(parsed.key, parsed.dmpId), parsed.versions, h);
    var ids := res.1;
    Success(parsed.(key := ids.key, dmpId := if ids.dmpId.None? then KeyToDmpId(domain, ids.key) else ids.dmpId))
  }

  /**
   * What `_from_hash` leaves: metadata and extras hold the split entries,
   * the versions are sorted descending and are a permutation of what was
   * read, modifications are copied as they are, and a DMP-ID is set whenever
   * there is a partition key.
   */
  lemma FromHashSplits(domain: string, s: ItemState, h: Hash)
    requires FromHash(domain, s, h).Success?
    ensures var t := FromHash(domain, s, h).value;
      && t.metadata == s.metadata + MetadataOf(h)
      && t.extras == s.extras + ExtrasOf(h)
      && SortedDescending(t.versions)
      && multiset(t.versions) == multiset(if VERSIONS_KEY in h then VersionsFrom(h[VERSIONS_KEY], Get(h, "modified")).value else s.versions)
      && t.modifications == (if MODIFICATIONS_KEY in h then h[MODIFICATIONS_KEY] else s.modifications)
      && (HasKey(t.key) ==> t.dmpId.Some?)
  {
    var versions := if VERSIONS_KEY in h then VersionsFrom(h[VERSIONS_KEY], Get(h, "modified")).value else s.versions;
    SortDescendingSorted(versions);
  }

  /**
   * `current_version?` on descending versions: true exactly when there are no
   * versions, or `modified` is a String that is one of the versions and below
   * none of them, i.e. the most recent one.
   */
  lemma CurrentVersionIsMostRecent(versions: seq<string>, metadata: Hash)
    requires SortedDescending(versions)
    ensures var m := Get(metadata, "modified");
      CurrentVersion(versions, metadata) <==>
        |versions| == 0 || (m.JString? && m.s in versions && forall v :: v in versions ==> !Less(m.s, v))
  {
    var m := Get(metadata, "modified");
    if |versions| > 0 {
      if CurrentVersion(versions, metadata) {
        forall v | v in versions ensures !Less(m.s, v) {
          SortedFirstIsGreatest(versions, v);
        }
      } else if m.JString? && m.s in versions && forall v :: v in versions ==> !Less(m.s, v) {
        SortedFirstIsGreatest(versions, m.s);
        assert versions[0] in versions;
        LessTotal(versions[0], m.s);
        assert false;
      }
    }
  }

  /** Every parsed item's versions are descending, so its `current_version?` means "most recent". */
  lemma ParsedCurrentVersion(domain: string, s: ItemState, h: Hash)
    requires FromHash(domain, s, h).Success?
    ensures var t := FromHash(domain, s, h).value;
      var m := Get(t.metadata, "modified");
      CurrentVersion(t.versions, t.metadata) <==>
        |t.versions| == 0 || (m.JString? && m.s in t.versions && forall v :: v in t.versions ==> !Less(m.s, v))
  {
    FromHashSplits(domain, s, h);
    CurrentVersionIsMostRecent(FromHash(domain, s, h).value.versions, FromHash(domain, s, h).value.metadata);
  }

  /** `_from_hash` once the versions read and the identifiers taken are known. */
  lemma FromHashWith(domain: string, s: ItemState, h: Hash, versions: seq<string>, found: bool, ids: Ids)
    requires (if VERSIONS_KEY in h then VersionsFrom(h[VERSIONS_KEY], Get(h, "modified")) else Success(s.versions)) == Success(versions)
    requires IdentifiersFromHash(domain, Ids(s.key, s.dmpId), SortDescending(versions), h) == Success((found, ids))
    ensures FromHash(domain, s, h) == Success(ItemState(
      s.metadata + MetadataOf(h), s.extras + ExtrasOf(h), SortDescending(versions),
      if MODIFICATIONS_KEY in h then h[MODIFICATIONS_KEY] else s.modifications,
      ids.key, if ids.dmpId.None? then KeyToDmpId(domain, ids.key) else ids.dmpId))
  {
  }

  /** A record with neither `PK` nor `dmp_id` leaves the empty key of a new item alone. */
  lemma FromHashKeepsEmptyKey(domain: string, h: Hash)
    requires Get(h, "PK") == JNull && Get(h, "dmp_id") == JNull
    requires FromHash(domain, InitialState(), h).Success?
    ensures FromHash(domain, InitialState(), h).value.key == Some(NosqlItem.EMPTY_KEY)
    ensures FromHash(domain, InitialState(), h).value.dmpId.None?
  {
  }

  /** `DynamodbDmpItem.new(**args)`: the guards, then `_from_hash` on the initial state. */
  function NewItem(env: Env, hasAdapter: bool, args: Hash): (r: Result<ItemState, RubyError>)
    ensures ConstructionError(env, hasAdapter).Some? ==> r == Failure(ConstructionError(env, hasAdapter).value)
  {
    match ConstructionError(env, hasAdapter)
    case Some(e) => Failure(e)
    case None => FromHash(env.doiBaseDomain.value, InitialState(), args)
  }

  // ---------------------------------------------------------------------------
  // _generate_key
  // ---------------------------------------------------------------------------

  /** `counter` runs from 0 to 10: eleven attempts. */
  const ATTEMPTS: nat := 11

  /** The partition key of the candidate drawn in one attempt. */
  function CandidateKey(domain: string, shoulder: string, d: Draw): string {
    PrefixedPartitionKey(domain, Candidate(shoulder, d))
  }

  /** The partition keys of the eleven attempts, in order. */
  function CandidateKeys(domain: string, shoulder: string, draws: seq<Draw>): (r: seq<string>)
    requires |draws| >= ATTEMPTS
    ensures |r| == ATTEMPTS
    ensures forall i :: 0 <= i < ATTEMPTS ==> r[i] == CandidateKey(domain, shoulder, draws[i])
  {
    seq(ATTEMPTS, i requires 0 <= i < ATTEMPTS => CandidateKey(domain, shoulder, draws[i]))
  }

  /** The first key the adapter reports as absent. */
  function FirstFree(taken: string -> bool, keys: seq<string>): (r: Option<nat>)
    ensures r.Some? ==> r.value < |keys| && !taken(keys[r.value])
    ensures r.Some? ==> forall i :: 0 <= i < r.value ==> taken(keys[i])
    ensures r.None? <==> forall i :: 0 <= i < |keys| ==> taken(keys[i])
  {
    if |keys| == 0 then None
    else if !taken(keys[0]) then Some(0)
    else
      assert forall i :: 1 <= i < |keys| ==> keys[i] == keys[1..][i - 1];
      match FirstFree(taken, keys[1..])
      case None => None
      case Some(i) => Some(i + 1)
  }

  /** The first free key is the one whose predecessors are all taken. */
  lemma {:induction false} FirstFreeExact(taken: string -> bool, keys: seq<string>, j: nat)
    requires j < |keys| && !taken(keys[j])
    requires forall i :: 0 <= i < j ==> taken(keys[i])
    ensures FirstFree(taken, keys) == Some(j)
    decreases j
  {
    if j > 0 {
      assert taken(keys[0]);
      forall i | 0 <= i < j - 1 ensures taken(keys[1..][i]) {
        assert keys[1..][i] == keys[i + 1];
      }
      FirstFreeExact(taken, keys[1..], j - 1);
    }
  }

  /**
   * `_generate_key`: an item with a partition key keeps it; otherwise the
   * first free candidate of the eleven attempts becomes the key, with
   * `VERSION#latest`, and the DMP-ID is read back from it.
   */
  function GenerateKey(domain: string, shoulder: string, taken: string -> bool, s: ItemState, draws: seq<Draw>): (r: Result<ItemState, RubyError>)
    requires |draws| >= ATTEMPTS
    ensures r.Success? ==> HasKey(r.value.key)
    ensures r.Success? ==> r.value.(key := s.key, dmpId := s.dmpId) == s
  {
    if HasKey(s.key) then Success(s)
    else
      var keys := CandidateKeys(domain, shoulder, draws);
      match FirstFree(taken, keys)
      case None => Failure(ItemError(MSG_UNABLE_TO_ACQUIRE_NEW_ID))
      case Some(i) =>
        var key := Some(Key(keys[i], Some(SORT_KEY_DMP_LATEST_VERSION)));
        Success(s.(key := key, dmpId := KeyToDmpId(domain, key)))
  }

  /** An existing non-empty key is returned untouched. */
  lemma GenerateKeyKeepsKey(domain: string, shoulder: string, taken: string -> bool, s: ItemState, draws: seq<Draw>)
    requires |draws| >= ATTEMPTS && HasKey(s.key)
    ensures GenerateKey(domain, shoulder, taken, s, draws) == Success(s)
  {
  }

  /**
   * A new key comes from the first of the eleven attempts whose partition key
   * is free, with `VERSION#latest`.
   */
  lemma GenerateKeyNew(domain: string, shoulder: string, taken: string -> bool, s: ItemState, draws: seq<Draw>)
    requires |draws| >= ATTEMPTS && !HasKey(s.key)
    requires GenerateKey(domain, shoulder, taken, s, draws).Success?
    ensures var t := GenerateKey(domain, shoulder, taken, s, draws).value;
      exists i :: 0 <= i < ATTEMPTS
        && t.key == Some(Key(CandidateKey(domain, shoulder, draws[i]), Some(SORT_KEY_DMP_LATEST_VERSION)))
        && t.dmpId == KeyToDmpId(domain, t.key)
        && !taken(t.key.value.partition)
        && (forall j :: 0 <= j < i ==> taken(CandidateKey(domain, shoulder, draws[j])))
  {
    var keys := CandidateKeys(domain, shoulder, draws);
    var i := FirstFree(taken, keys).value;
    assert forall j :: 0 <= j < i ==> taken(keys[j]);
  }

  /**
   * The partition key of a well-formed candidate is `DMP#<domain>/<candidate>`
   * and the DMP-ID read back from it is the candidate.
   */
  lemma CandidateKeyRoundTrip(domain: string, shoulder: string, d: Draw)
    requires DomainOk(domain)
    requires var c := Candidate(shoulder, d); IdOk(domain, c) && !Contains(c, "doi:")
    ensures var c := Candidate(shoulder, d);
      var key := Some(Key(CandidateKey(domain, shoulder, d), Some(SORT_KEY_DMP_LATEST_VERSION)));
      key.value.partition == PARTITION_KEY_DMP_PREFIX + domain + "/" + c && KeyToDmpId(domain, key) == Some(c)
  {
    var c := Candidate(shoulder, d);
    KeyToDmpIdRoundTrip(domain, c, None);
    PartitionKeyRoundTrip(domain, c);
  }

  /** When all eleven partition keys are taken, `_generate_key` raises ItemError. */
  lemma GenerateKeyExhausted(domain: string, shoulder: string, taken: string -> bool, s: ItemState, draws: seq<Draw>)
    requires |draws| >= ATTEMPTS && !HasKey(s.key)
    ensures GenerateKey(domain, shoulder, taken, s, draws).Failure?
        <==> forall i :: 0 <= i < ATTEMPTS ==> taken(CandidateKey(domain, shoulder, draws[i]))
    ensures GenerateKey(domain, shoulder, taken, s, draws).Failure? ==>
      GenerateKey(domain, shoulder, taken, s, draws).error == ItemError(MSG_UNABLE_TO_ACQUIRE_NEW_ID)
  {
    var keys := CandidateKeys(domain, shoulder, draws);
    assert forall i :: 0 <= i < ATTEMPTS ==> keys[i] == CandidateKey(domain, shoulder, draws[i]);
  }

  /**
   * The real adapter answers false for any key that is not a Hash, and
   * `_generate_key` asks with a String: the first candidate always wins.
   */
  lemma GenerateKeyFirstCandidate(domain: string, shoulder: string, s: ItemState, draws: seq<Draw>)
    requires |draws| >= ATTEMPTS && !HasKey(s.key)
    ensures var t := GenerateKey(domain, shoulder, k => false, s, draws);
      t.Success? && t.value.key == Some(Key(CandidateKey(domain, shoulder, draws[0]), Some(SORT_KEY_DMP_LATEST_VERSION)))
  {
  }

  // ---------------------------------------------------------------------------
  // to_nosql_hash and to_json
  // ---------------------------------------------------------------------------

  /** The frameworks' inputs: `Rails.configuration.x.application_name` and the `dmp_url` route helper. */
  datatype Config = Config(doiBaseDomain: string, doiShoulder: string, applicationName: Option<string>, dmpUrl: string -> string)

  /** `{ type: 'doi', identifier: "https://#{@doi_base_domain}/#{@dmp_id}" }`, nil interpolating as nothing. */
  function DmpIdJson(domain: string, dmpId: Option<string>): (r: Json)
    ensures r.JObject? && r.fields.Keys == {"type", "identifier"} && r.fields["type"] == JString("doi")
    ensures r.fields["identifier"] == JString("https://" + domain + "/" + (if dmpId.Some? then dmpId.value else ""))
  {
    JObject(map["type" := JString("doi"), "identifier" := JString("https://" + domain + "/" + (if dmpId.Some? then dmpId.value else ""))])
  }

  /** `_default_provenance`: `PROVENANCE#` and the application name, down-cased and stripped. */
  function DefaultProvenance(applicationName: Option<string>): (r: string)
    ensures StartsWith(r, PROVENANCE_KEY_PREFIX)
    ensures applicationName.None? ==> r == PROVENANCE_KEY_PREFIX
  {
    var name := if applicationName.Some? then Strip(Downcase(applicationName.value)) else "";
    assert (PROVENANCE_KEY_PREFIX + name)[..|PROVENANCE_KEY_PREFIX|] == PROVENANCE_KEY_PREFIX;
    PROVENANCE_KEY_PREFIX + name
  }

  /**
   * `x[0..9]` on the value of `modified`: the first ten characters of a
   * String or items of an Array; nil for a Hash (a lookup of the Range);
   * bits 0 to 9 of an Integer; NoMethodError for the rest.
   */
  function FirstTen(v: Json): (r: Result<Json, RubyError>)
    ensures v.JString? ==> r.Success? && r.value.JString? && r.value.s == v.s[..if |v.s| < 10 then |v.s| else 10]
    ensures r.Failure? <==> v.JBool? || v.JNull?
  {
    match v
    case JString(s) => Success(JString(s[..if |s| < 10 then |s| else 10]))
    case JArray(items) => Success(JArray(items[..if |items| < 10 then |items| else 10]))
    case JObject(_) => Success(JNull)
    case JNum(n) => Success(JNum(n % 1024))
    case _ => Failure(NoMethodError)
  }

  /** `h[k] = v if h[k].nil?` */
  function DefaultTo(h: Hash, k: string, v: Json): (r: Hash)
    ensures k in r && r.Keys == h.Keys + {k}
    ensures forall j :: j in h && j != k ==> r[j] == h[j]
    ensures r[k] == (if Get(h, k) == JNull then v else h[k])
    ensures forall j :: j != k ==> Get(r, j) == Get(h, j)
  {
    if Get(h, k) == JNull then h[k := v] else h
  }

  /**
   * Lines 95-102: the timestamp and provenance defaults. They fail only on a
   * boolean `modified` when the modification day is missing. Line 102 never
   * fires, as line 101 has just set the provenance.
   */
  function WithDefaults(h: Hash, now: string, provenance: string): (r: Result<Hash, RubyError>)
    ensures r.Failure? <==> Get(h, "dmphub_modification_day") == JNull && Get(h, "modified").JBool?
  {
    var h3 := StampCreated(h, now);
    var h4 :- DefaultDay(h3);
    Success(StampUpdated(h4, now, provenance))
  }

  /** Lines 96-98. */
  function StampCreated(h: Hash, now: string): (r: Hash)
    ensures Keeps(h, r)
    ensures "created" in r && "dmphub_created_at" in r && "modified" in r
    ensures r["created"] == (if Get(h, "created") == JNull then JString(now) else h["created"])
    ensures r["modified"] == (if Get(h, "modified") == JNull then JString(now) else h["modified"])
    ensures Get(h, "dmphub_created_at") == JNull ==> r["dmphub_created_at"] == r["created"]
  {
    var h1 := DefaultTo(h, "created", JString(now));
    var h2 := DefaultTo(h1, "dmphub_created_at", Fetch(h1, "created", JString(now)));
    KeepsDefault(h, "created", JString(now));
    KeepsDefault(h1, "dmphub_created_at", Fetch(h1, "created", JString(now)));
    KeepsTransitive(h, h1, h2);
    var h3 := DefaultTo(h2, "modified", JString(now));
    KeepsDefault(h2, "modified", JString(now));
    KeepsTransitive(h, h2, h3);
    h3
  }

  /** Line 99. */
  function DefaultDay(h: Hash): (r: Result<Hash, RubyError>)
    requires "modified" in h
    ensures r.Success? ==> Keeps(h, r.value) && "dmphub_modification_day" in r.value
    ensures r.Success? ==> r.value["modified"] == h["modified"]
    ensures r.Success? && Get(h, "dmphub_modification_day") == JNull ==> Success(r.value["dmphub_modification_day"]) == FirstTen(h["modified"])
    ensures r.Failure? <==> Get(h, "dmphub_modification_day") == JNull && FirstTen(h["modified"]).Failure?
  {
    if Get(h, "dmphub_modification_day") == JNull then
      var day :- FirstTen(h["modified"]);
      Success(h["dmphub_modification_day" := day])
    else Success(h)
  }

  /** Lines 100-101. */
  function StampUpdated(h: Hash, now: string, provenance: string): (r: Hash)
    ensures Keeps(h, r)
    ensures "dmphub_updated_at" in r && "dmphub_provenance_id" in r
    ensures Get(h, "dmphub_updated_at") == JNull ==> r["dmphub_updated_at"] == Fetch(h, "modified", JString(now))
    ensures Get(h, "dmphub_provenance_id") == JNull ==> r["dmphub_provenance_id"] == JString(provenance)
  {
    var h5 := DefaultTo(h, "dmphub_updated_at", Fetch(h, "modified", JString(now)));
    KeepsDefault(h, "dmphub_updated_at", Fetch(h, "modified", JString(now)));
    KeepsDefault(h5, "dmphub_provenance_id", JString(provenance));
    KeepsTransitive(h, h5, DefaultTo(h5, "dmphub_provenance_id", JString(provenance)));
    DefaultTo(h5, "dmphub_provenance_id", JString(provenance))
  }

  /** The keys `to_nosql_hash` fills in when they are nil. */
  predicate Defaulted(k: string) {
    k == "created" || k == "dmphub_created_at" || k == "modified" || k == "dmphub_modification_day"
    || k == "dmphub_updated_at" || k == "dmphub_provenance_id"
  }

  /** `b` holds every key of `a`, with the same value unless that was nil, and adds only defaulted keys. */
  predicate Keeps(a: Hash, b: Hash) {
    && (forall k :: k in a ==> k in b && (a[k] != JNull ==> b[k] == a[k]))
    && (forall k :: k in b && !Defaulted(k) ==> k in a && b[k] == a[k])
  }

  lemma KeepsDefault(a: Hash, k: string, v: Json)
    requires Defaulted(k)
    ensures Keeps(a, DefaultTo(a, k, v))
  {
  }

  lemma KeepsTransitive(a: Hash, b: Hash, c: Hash)
    requires Keeps(a, b) && Keeps(b, c)
    ensures Keeps(a, c)
  {
  }

  /**
   * The defaults keep every value that is not nil and touch no key other
   * than the six they default.
   */
  lemma WithDefaultsKeeps(h: Hash, now: string, provenance: string)
    requires WithDefaults(h, now, provenance).Success?
    ensures Keeps(h, WithDefaults(h, now, provenance).value)
  {
    var h3 := StampCreated(h, now);
    var h4 := DefaultDay(h3).value;
    KeepsTransitive(h, h3, h4);
    KeepsTransitive(h, h4, StampUpdated(h4, now, provenance));
  }

  /**
   * Every defaulted key is set. A missing `created` or `modified` is dated
   * now; the creation and update stamps copy them; the modification day is
   * the first ten characters of `modified`; the provenance is the default.
   */
  lemma WithDefaultsFills(h: Hash, now: string, provenance: string)
    requires WithDefaults(h, now, provenance).Success?
    ensures var r := WithDefaults(h, now, provenance).value;
      && (forall k :: Defaulted(k) ==> k in r)
      && r["created"] == (if Get(h, "created") == JNull then JString(now) else h["created"])
      && r["modified"] == (if Get(h, "modified") == JNull then JString(now) else h["modified"])
      && (Get(h, "dmphub_created_at") == JNull ==> r["dmphub_created_at"] == r["created"])
      && (Get(h, "dmphub_updated_at") == JNull ==> r["dmphub_updated_at"] == r["modified"])
      && (Get(h, "dmphub_modification_day") == JNull ==> Success(r["dmphub_modification_day"]) == FirstTen(r["modified"]))
      && (Get(h, "dmphub_provenance_id") == JNull ==> r["dmphub_provenance_id"] == JString(provenance))
  {
    var h3 := StampCreated(h, now);
    var h4 := DefaultDay(h3).value;
    var r := StampUpdated(h4, now, provenance);
    KeepsTransitive(h, h3, h4);
    assert h3["created"] != JNull && h3["modified"] != JNull;
    assert r["created"] == h3["created"] && r["modified"] == h3["modified"];
    if Get(h, "dmphub_created_at") == JNull {
      assert h3["dmphub_created_at"] != JNull;
    }
    StampCreatedOthers(h, now);
    DefaultDayOthers(h3);
    StampUpdatedOthers(h4, now, provenance);
    assert h4["modified"] == h3["modified"];
  }

  /** The stamps of lines 96-98 leave the keys of the later lines as they found them. */
  lemma StampCreatedOthers(h: Hash, now: string)
    ensures var r := StampCreated(h, now);
      && Get(r, "dmphub_modification_day") == Get(h, "dmphub_modification_day")
      && Get(r, "dmphub_updated_at") == Get(h, "dmphub_updated_at")
      && Get(r, "dmphub_provenance_id") == Get(h, "dmphub_provenance_id")
  {
    var h1 := DefaultTo(h, "created", JString(now));
    var h2 := DefaultTo(h1, "dmphub_created_at", Fetch(h1, "created", JString(now)));
    assert StampCreated(h, now) == DefaultTo(h2, "modified", JString(now));
  }

  /** The modification day of line 99 leaves the keys of lines 100-101 as it found them. */
  lemma DefaultDayOthers(h: Hash)
    requires "modified" in h && DefaultDay(h).Success?
    ensures Get(DefaultDay(h).value, "dmphub_updated_at") == Get(h, "dmphub_updated_at")
    ensures Get(DefaultDay(h).value, "dmphub_provenance_id") == Get(h, "dmphub_provenance_id")
  {
  }

  /** The stamps of lines 100-101 leave the modification day as they found it. */
  lemma StampUpdatedOthers(h: Hash, now: string, provenance: string)
    ensures Get(StampUpdated(h, now, provenance), "dmphub_modification_day") == Get(h, "dmphub_modification_day")
  {
    var h5 := DefaultTo(h, "dmphub_updated_at", Fetch(h, "modified", JString(now)));
    assert StampUpdated(h, now, provenance) == DefaultTo(h5, "dmphub_provenance_id", JString(provenance));
  }

  /**
   * `to_nosql_hash`: the output record, and the state it leaves. On success
   * the key is generated when missing, `PK`, `SK` and `dmp_id` are written
   * into the metadata (which the method reaches through `hash = @metadata`),
   * and so are the versions when there are some; the extras and the
   * modifications are merged in, then the defaults filled. A failing
   * `_generate_key` changes nothing; a failing default leaves the metadata
   * already written.
   */
  function ToNosqlHash(cfg: Config, taken: string -> bool, s: ItemState, draws: seq<Draw>, now: string): (r: (Result<Hash, RubyError>, ItemState))
    requires |draws| >= ATTEMPTS
    ensures r.0.Success? ==> HasKey(r.1.key)
    ensures !HasKey(r.1.key) ==> r.0.Failure? && r.1 == s
  {
    match GenerateKey(cfg.doiBaseDomain, cfg.doiShoulder, taken, s, draws)
    case Failure(e) => (Failure(e), s)
    case Success(s1) =>
      var meta := NosqlMetadata(cfg, s1);
      (WithDefaults(Merged(meta, s1), now, DefaultProvenance(cfg.applicationName)), s1.(metadata := meta))
  }

  /** Lines 86-90: the metadata with the key, the DMP-ID and the versions written into it. */
  function NosqlMetadata(cfg: Config, s: ItemState): (r: Hash)
    requires HasKey(s.key)
    ensures r.Keys == s.metadata.Keys + {"PK", "SK", "dmp_id"} + (if |s.versions| == 0 then {} else {VERSIONS_KEY})
    ensures r["PK"] == JString(s.key.value.partition) && r["SK"] == OptString(s.key.value.sort)
    ensures r["dmp_id"] == DmpIdJson(cfg.doiBaseDomain, s.dmpId)
    ensures |s.versions| > 0 ==>
      r[VERSIONS_KEY] == JArray(VersionsForNosql(cfg.dmpUrl(UnprefixedPartitionKey(cfg.doiBaseDomain, s.key.value.partition)), s.versions))
    ensures forall k :: k in s.metadata && !(k in {"PK", "SK", "dmp_id", VERSIONS_KEY}) ==> r[k] == s.metadata[k]
  {
    var key := s.key.value;
    var meta := s.metadata["PK" := JString(key.partition)]["SK" := OptString(key.sort)]
                          ["dmp_id" := DmpIdJson(cfg.doiBaseDomain, s.dmpId)];
    if |s.versions| == 0 then meta
    else meta[VERSIONS_KEY := JArray(VersionsForNosql(cfg.dmpUrl(UnprefixedPartitionKey(cfg.doiBaseDomain, key.partition)), s.versions))]
  }

  /** Lines 91-92: the extras merged over it and the modifications set. */
  function Merged(meta: Hash, s: ItemState): (r: Hash)
    ensures r.Keys == meta.Keys + s.extras.Keys + {MODIFICATIONS_KEY}
    ensures r[MODIFICATIONS_KEY] == s.modifications
    ensures forall k :: k in s.extras && k != MODIFICATIONS_KEY ==> r[k] == s.extras[k]
    ensures forall k :: k in meta && k !in s.extras && k != MODIFICATIONS_KEY ==> r[k] == meta[k]
  {
    (meta + s.extras)[MODIFICATIONS_KEY := s.modifications]
  }

  /** `to_nosql_hash` once `_generate_key` has succeeded. */
  lemma ToNosqlHashAfterKey(cfg: Config, taken: string -> bool, s: ItemState, draws: seq<Draw>, now: string, s1: ItemState)
    requires |draws| >= ATTEMPTS
    requires GenerateKey(cfg.doiBaseDomain, cfg.doiShoulder, taken, s, draws) == Success(s1)
    ensures HasKey(s1.key)
    ensures ToNosqlHash(cfg, taken, s, draws, now) ==
      (WithDefaults(Merged(NosqlMetadata(cfg, s1), s1), now, DefaultProvenance(cfg.applicationName)), s1.(metadata := NosqlMetadata(cfg, s1)))
  {
  }

  /**
   * A failing `_generate_key` leaves the item as it was; otherwise the
   * item's new key is present and the only change to the item is its key,
   * its DMP-ID and the fields written into its metadata.
   */
  lemma ToNosqlHashState(cfg: Config, taken: string -> bool, s: ItemState, draws: seq<Draw>, now: string)
    requires |draws| >= ATTEMPTS
    ensures var g := GenerateKey(cfg.doiBaseDomain, cfg.doiShoulder, taken, s, draws);
      var t := ToNosqlHash(cfg, taken, s, draws, now).1;
      && (g.Failure? ==> ToNosqlHash(cfg, taken, s, draws, now).0 == Failure(g.error) && t == s)
      && (g.Success? ==>
            && HasKey(t.key) && t.(metadata := s.metadata, key := s.key, dmpId := s.dmpId) == s
            && t.metadata.Keys == s.metadata.Keys + {"PK", "SK", "dmp_id"} + (if |s.versions| == 0 then {} else {VERSIONS_KEY})
            && (forall k :: k in s.metadata && !(k in {"PK", "SK", "dmp_id", VERSIONS_KEY}) ==> t.metadata[k] == s.metadata[k]))
  {
    var g := GenerateKey(cfg.doiBaseDomain, cfg.doiShoulder, taken, s, draws);
    if g.Success? {
      var s1 := g.value;
      assert s1.metadata == s.metadata && s1.versions == s.versions;
      assert ToNosqlHash(cfg, taken, s, draws, now).1 == s1.(metadata := NosqlMetadata(cfg, s1));
    }
  }

  /**
   * The output's `PK` and `SK` are the item's key, `dmp_id` points at
   * `https://<domain>/<dmp-id>`, `dmphub_modifications` are the item's, and
   * when the item has versions, `dmphub_versions` lists them in order, each
   * with the item's landing page URL, unless an extra of that name overrides
   * them.
   */
  lemma ToNosqlHashFields(cfg: Config, taken: string -> bool, s: ItemState, draws: seq<Draw>, now: string)
    requires |draws| >= ATTEMPTS
    requires ToNosqlHash(cfg, taken, s, draws, now).0.Success?
    requires !("PK" in s.extras || "SK" in s.extras || "dmp_id" in s.extras)
    ensures var t := ToNosqlHash(cfg, taken, s, draws, now).1;
      var out := ToNosqlHash(cfg, taken, s, draws, now).0.value;
      && "PK" in out && out["PK"] == JString(t.key.value.partition)
      && "SK" in out && out["SK"] == OptString(t.key.value.sort)
      && "dmp_id" in out && out["dmp_id"] == DmpIdJson(cfg.doiBaseDomain, t.dmpId)
      && MODIFICATIONS_KEY in out && out[MODIFICATIONS_KEY] == s.modifications
      && (|s.versions| > 0 && VERSIONS_KEY !in s.extras ==>
            VERSIONS_KEY in out && out[VERSIONS_KEY] ==
            JArray(VersionsForNosql(cfg.dmpUrl(UnprefixedPartitionKey(cfg.doiBaseDomain, t.key.value.partition)), s.versions)))
  {
    var s1 := GenerateKey(cfg.doiBaseDomain, cfg.doiShoulder, taken, s, draws).value;
    var out := WithDefaults(Merged(NosqlMetadata(cfg, s1), s1), now, DefaultProvenance(cfg.applicationName)).value;
    assert ToNosqlHash(cfg, taken, s, draws, now) == (Success(out), s1.(metadata := NosqlMetadata(cfg, s1)));
    WithDefaultsKeeps(Merged(NosqlMetadata(cfg, s1), s1), now, DefaultProvenance(cfg.applicationName));
    MergedFields(cfg, s1);
    KeptKeys(Merged(NosqlMetadata(cfg, s1), s1), out);
  }

  /** The four keys `to_nosql_hash` writes are not defaulted, so they survive the defaults. */
  lemma KeptKeys(a: Hash, b: Hash)
    requires Keeps(a, b)
    requires "PK" in a && "SK" in a && "dmp_id" in a && MODIFICATIONS_KEY in a
    ensures "PK" in b && b["PK"] == a["PK"] && "SK" in b && b["SK"] == a["SK"]
    ensures "dmp_id" in b && b["dmp_id"] == a["dmp_id"] && MODIFICATIONS_KEY in b && b[MODIFICATIONS_KEY] == a[MODIFICATIONS_KEY]
    ensures VERSIONS_KEY in a ==> VERSIONS_KEY in b && b[VERSIONS_KEY] == a[VERSIONS_KEY]
  {
    KeptKey(a, b, "PK", a["PK"]);
    KeptKey(a, b, "SK", a["SK"]);
    KeptKey(a, b, "dmp_id", a["dmp_id"]);
    KeptKey(a, b, MODIFICATIONS_KEY, a[MODIFICATIONS_KEY]);
    if VERSIONS_KEY in a {
      KeptKey(a, b, VERSIONS_KEY, a[VERSIONS_KEY]);
    }
  }

  lemma MergedFields(cfg: Config, s: ItemState)
    requires HasKey(s.key)
    requires !("PK" in s.extras || "SK" in s.extras || "dmp_id" in s.extras)
    ensures var merged := Merged(NosqlMetadata(cfg, s), s);
      && "PK" in merged && merged["PK"] == JString(s.key.value.partition)
      && "SK" in merged && merged["SK"] == OptString(s.key.value.sort)
      && "dmp_id" in merged && merged["dmp_id"] == DmpIdJson(cfg.doiBaseDomain, s.dmpId)
      && MODIFICATIONS_KEY in merged && merged[MODIFICATIONS_KEY] == s.modifications
      && (|s.versions| > 0 && VERSIONS_KEY !in s.extras ==>
            VERSIONS_KEY in merged && merged[VERSIONS_KEY] ==
            JArray(VersionsForNosql(cfg.dmpUrl(UnprefixedPartitionKey(cfg.doiBaseDomain, s.key.value.partition)), s.versions)))
  {
    var meta := NosqlMetadata(cfg, s);
    assert "PK" != MODIFICATIONS_KEY && "SK" != MODIFICATIONS_KEY && "dmp_id" != MODIFICATIONS_KEY && VERSIONS_KEY != MODIFICATIONS_KEY;
    assert "PK" in meta && "SK" in meta && "dmp_id" in meta;
  }

  /** A key the defaults do not touch keeps its value. */
  lemma KeptKey(a: Hash, b: Hash, k: string, v: Json)
    requires Keeps(a, b) && !Defaulted(k) && k in a && a[k] == v
    ensures k in b && b[k] == v
  {
  }

  /**
   * The metadata and extras the item carried reach the output, the extras
   * winning a clash, unless they were nil (then a defaulted key may be
   * filled) or were one of the keys written above.
   */
  lemma ToNosqlHashCarries(cfg: Config, taken: string -> bool, s: ItemState, draws: seq<Draw>, now: string, k: string)
    requires |draws| >= ATTEMPTS
    requires ToNosqlHash(cfg, taken, s, draws, now).0.Success?
    requires !(k in {"PK", "SK", "dmp_id", VERSIONS_KEY, MODIFICATIONS_KEY})
    ensures var out := ToNosqlHash(cfg, taken, s, draws, now).0.value;
      && (k in s.extras && s.extras[k] != JNull ==> k in out && out[k] == s.extras[k])
      && (k in s.metadata && k !in s.extras && s.metadata[k] != JNull ==> k in out && out[k] == s.metadata[k])
      && (k in out && !Defaulted(k) ==> k in s.metadata || k in s.extras)
  {
    var s1 := GenerateKey(cfg.doiBaseDomain, cfg.doiShoulder, taken, s, draws).value;
    var merged := Merged(NosqlMetadata(cfg, s1), s1);
    var out := WithDefaults(merged, now, DefaultProvenance(cfg.applicationName));
    assert ToNosqlHash(cfg, taken, s, draws, now).0 == out;
    assert s1.metadata == s.metadata && s1.extras == s.extras;
    WithDefaultsKeeps(merged, now, DefaultProvenance(cfg.applicationName));
    MergedEntry(cfg, s1, k);
  }

  /** One entry other than the written keys reaches the merged record from the extras or the metadata, and from nowhere else. */
  lemma MergedEntry(cfg: Config, s: ItemState, k: string)
    requires HasKey(s.key)
    requires !(k in {"PK", "SK", "dmp_id", VERSIONS_KEY, MODIFICATIONS_KEY})
    ensures var m := Merged(NosqlMetadata(cfg, s), s);
      && (k in s.extras ==> k in m && m[k] == s.extras[k])
      && (k in s.metadata && k !in s.extras ==> k in m && m[k] == s.metadata[k])
      && (k in m ==> k in s.metadata || k in s.extras)
  {
  }

  /** `to_json`: the metadata with `dmp_id` written into it, which is also the new metadata. */
  function ToJson(domain: string, s: ItemState): (r: (Hash, ItemState))
    ensures r.1 == s.(metadata := r.0)
    ensures r.0.Keys == s.metadata.Keys + {"dmp_id"}
    ensures r.0["dmp_id"] == DmpIdJson(domain, s.dmpId)
    ensures forall k :: k in s.metadata && k != "dmp_id" ==> r.0[k] == s.metadata[k]
  {
    var out := s.metadata["dmp_id" := DmpIdJson(domain, s.dmpId)];
    (out, s.(metadata := out))
  }
}
