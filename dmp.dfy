/**
 * `Dmp` (app/models/dmp.rb), the model class built on the draft item: with
 * `NOSQL_ITEM_CLASS = NosqlAdapter::AwsDynamodbItem` a `Dmp` is a draft item
 * with four more operations. A registered record can only be tombstoned and
 * an unregistered one can only be deleted.
 *
 * The inheritance is modelled by composition: a `Dmp` holds the draft item
 * whose fields it reads and updates. `NOSQL_ADAPTER` is a `Store` whose log
 * records the delete and put calls it receives.
 */
module DmpModel {
  import opened Wrappers
  import opened RubyJson
  import DmpKeys
  import DraftRecord
  import DraftItem

  // ---------------------------------------------------------------------------
  // registered? and find_by_dmp_id
  // ---------------------------------------------------------------------------

  /** A value `empty?` answers false for: a non-empty String, Array or Hash. */
  predicate NonEmpty(v: Json) {
    || (v.JString? && v.s != "")
    || (v.JArray? && v.items != [])
    || (v.JObject? && v.fields != map[])
  }

  /**
   * `registered?`: `!@metadata['registered'].empty?`. A missing entry is nil,
   * and `nil.empty?` raises NoMethodError, as do booleans and numbers.
   */
  function Registered(metadata: Hash): (r: Result<bool, RubyError>)
    ensures r.Failure? <==> Get(metadata, "registered").JNull? || Get(metadata, "registered").JBool? || Get(metadata, "registered").JNum?
    ensures r.Failure? ==> r.error == NoMethodError
    ensures r == Success(true) <==> "registered" in metadata && NonEmpty(metadata["registered"])
  {
    var empty :- IsEmpty(Get(metadata, "registered"));
    Success(!empty)
  }

  /** What `NOSQL_ADAPTER.get(key:)` hands back. */
  datatype Fetched =
    | NotFound
    | NotAnItem(raw: Json)            // a value that is not an instance of the item class
    | AnItem(item: DraftRecord.DraftState)

  /**
   * The guard of `find_by_dmp_id`: the fetched value is returned only when
   * it is an item whose key equals the key that was asked for. The key comes
   * from `from_dmp_id`, which no file defines, so it is a parameter here.
   */
  function FindByDmpId(requested: Option<DmpKeys.Key>, fetched: Fetched): (r: Option<DraftRecord.DraftState>)
    ensures r.Some? <==> fetched.AnItem? && fetched.item.key == requested
    ensures r.Some? ==> r.value == fetched.item
  {
    match fetched
    case AnItem(item) => if requested == item.key then Some(item) else None
    case _ => None
  }

  // ---------------------------------------------------------------------------
  // The adapter's log
  // ---------------------------------------------------------------------------

  /** A call on `NOSQL_ADAPTER` that changes the database. */
  datatype Op =
    | DeleteOp(key: Option<DmpKeys.Key>)
    | PutOp(key: Option<DmpKeys.Key>, item: Hash)

  /** `NOSQL_ADAPTER`, as the calls it receives. */
  class Store {
    var log: seq<Op>

    constructor ()
      ensures log == []
    {
      log := [];
    }

    /** `NOSQL_ADAPTER.delete(key:)` */
    method Delete(key: Option<DmpKeys.Key>)
      modifies this
      ensures log == old(log) + [DeleteOp(key)]
    {
      log := log + [DeleteOp(key)];
    }

    /** `NOSQL_ADAPTER.put(key:, item:)` */
    method Put(key: Option<DmpKeys.Key>, item: Hash)
      modifies this
      ensures log == old(log) + [PutOp(key, item)]
    {
      log := log + [PutOp(key, item)];
    }
  }

  // ---------------------------------------------------------------------------
  // delete and tombstone, as functions of the item's state
  // ---------------------------------------------------------------------------

  /**
   * `delete`: false and no call for a registered record; otherwise one
   * delete of the current key per version, then true.
   */
  function DeleteOf(s: DraftRecord.DraftState): (r: Result<(bool, seq<Op>), RubyError>)
    ensures r.Failure? <==> Registered(s.metadata).Failure?
    ensures r.Success? ==> (r.value.0 <==> !Registered(s.metadata).value)
    ensures r.Success? && !r.value.0 ==> r.value.1 == []
    ensures r.Success? && r.value.0 ==>
      |r.value.1| == |s.versions| && forall i :: 0 <= i < |r.value.1| ==> r.value.1[i] == DeleteOp(s.key)
  {
    var registered :- Registered(s.metadata);
    if registered then Success((false, []))
    else Success((true, seq(|s.versions|, _ => DeleteOp(s.key))))
  }

  /** `"OBSOLETE: #{@metadata['title']}"`: the title as Ruby interpolates it. */
  function TitleText(v: Json, inspect: Json -> string): (r: string)
    ensures v.JNull? ==> r == ""
    ensures v.JString? ==> r == v.s
  {
    match v
    case JNull => ""
    case JString(s) => s
    case JBool(b) => if b then "true" else "false"
    case JNum(n) => IntToString(n)
    case _ => inspect(v)
  }

  /** `Integer#to_s`: decimal, with a minus sign for a negative number. */
  function IntToString(n: int): (r: string)
    ensures r != ""
    ensures n >= 0 ==> IsDigits(r)
    ensures n < 0 ==> r[0] == '-' && IsDigits(r[1..])
    ensures n >= 0 ==> (r[0] == '0' <==> n == 0)
    decreases if n < 0 then 1 - n else n
  {
    if n < 0 then "-" + IntToString(-n)
    else if n < 10 then ["0123456789"[n]]
    else IntToString(n / 10) + ["0123456789"[n % 10]]
  }

  predicate IsDigits(s: string) {
    forall i :: 0 <= i < |s| ==> '0' <= s[i] <= '9'
  }

  /** The number a string of decimal digits spells, most significant first. */
  function DecimalValue(s: string): (r: nat)
    requires IsDigits(s)
  {
    if |s| == 0 then 0 else 10 * DecimalValue(s[..|s| - 1]) + (s[|s| - 1] as int - '0' as int)
  }

  /**
   * `IntToString` spells its number: the digits read back give `n`, after
   * the minus sign for a negative `n`. With no leading zero, this is the one
   * decimal rendering of `n`.
   */
  lemma IntToStringValue(n: int)
    ensures n >= 0 ==> DecimalValue(IntToString(n)) == n
    ensures n < 0 ==> DecimalValue(IntToString(n)[1..]) == -n
  {
    if n < 0 {
      NaturalValue(-n);
      NegativeDigits(n);
    } else {
      NaturalValue(n);
    }
  }

  /** The non-negative case, by induction on the number of digits. */
  lemma {:induction false} NaturalValue(n: nat)
    ensures DecimalValue(IntToString(n)) == n
  {
    if n < 10 {
      SingleDigit(n);
    } else {
      NaturalValue(n / 10);
      LastDigit(n);
    }
  }

  /** The digits after the minus sign are those of the absolute value. */
  lemma NegativeDigits(n: int)
    requires n < 0
    ensures IntToString(n)[1..] == IntToString(-n)
    ensures DecimalValue(IntToString(n)[1..]) == DecimalValue(IntToString(-n))
  {
    assert IntToString(n)[1..] == IntToString(-n);
  }

  /** A number below ten is spelt by its one digit. */
  lemma SingleDigit(n: int)
    requires 0 <= n < 10
    ensures DecimalValue(IntToString(n)) == n
  {
    DigitChar(n);
    assert IntToString(n)[..0] == [];
  }

  /** Appending the last digit multiplies the value of the others by ten and adds it. */
  lemma LastDigit(n: int)
    requires n >= 10 && DecimalValue(IntToString(n / 10)) == n / 10
    ensures DecimalValue(IntToString(n)) == n
  {
    var q, d := n / 10, n % 10;
    DigitChar(d);
    var r := IntToString(n);
    assert r == IntToString(q) + ["0123456789"[d]];
    assert r[..|r| - 1] == IntToString(q);
    assert r[|r| - 1] == "0123456789"[d];
    assert DecimalValue(r) == 10 * q + d;
  }

  /** The character `Integer#to_s` writes for a digit has that digit's value. */
  lemma DigitChar(d: int)
    requires 0 <= d < 10
    ensures "0123456789"[d] as int - '0' as int == d
  {
    assert "0123456789"[d] == "0123456789"[d];
  }

  const OBSOLETE_PREFIX: string := "OBSOLETE: "

  /**
   * Lines 97-102 of `tombstone` on a registered record: the sort key becomes
   * `VERSION#tombstone`, the title gets `OBSOLETE: ` in front, and `modified`
   * and `tombstoned` are both set to now. A nil `@key` raises NoMethodError.
   */
  function Obsoleted(s: DraftRecord.DraftState, now: string, inspect: Json -> string): (r: DraftRecord.DraftState)
    requires s.key.Some?
    ensures r.key == Some(DmpKeys.Key(s.key.value.partition, Some(DmpKeys.SORT_KEY_DMP_TOMBSTONE_VERSION)))
    ensures "title" in r.metadata && r.metadata["title"].JString? && OBSOLETE_PREFIX <= r.metadata["title"].s
    ensures "modified" in r.metadata && "tombstoned" in r.metadata && r.metadata["modified"] == r.metadata["tombstoned"]
    ensures forall k :: k in s.metadata && k !in {"title", "modified", "tombstoned"} ==> k in r.metadata && r.metadata[k] == s.metadata[k]
    ensures r.(key := s.key, metadata := s.metadata) == s
  {
    var title := OBSOLETE_PREFIX + TitleText(Get(s.metadata, "title"), inspect);
    s.(key := Some(s.key.value.(sort := Some(DmpKeys.SORT_KEY_DMP_TOMBSTONE_VERSION))),
       metadata := s.metadata["title" := JString(title)]["modified" := JString(now)]["tombstoned" := JString(now)])
  }

  /**
   * `tombstone`, with the tombstone sort key it evidently means: false and
   * no change for an unregistered record; otherwise the obsoleted state,
   * serialised by the draft's `to_nosql_hash`, and one put of that hash
   * under the new key.
   */
  function TombstoneOf(s: DraftRecord.DraftState, now: string, inspect: Json -> string): (r: Result<(bool, DraftRecord.DraftState, seq<Op>), RubyError>)
    ensures Registered(s.metadata).Failure? ==> r == Failure(Registered(s.metadata).error)
    ensures Registered(s.metadata) == Success(false) ==> r == Success((false, s, []))
    ensures Registered(s.metadata) == Success(true) ==> (r.Success? <==> s.key.Some?)
    ensures r.Success? && r.value.0 ==> |r.value.2| == 1 && r.value.2[0].PutOp?
  {
    var registered :- Registered(s.metadata);
    if !registered then Success((false, s, []))
    else if s.key.None? then Failure(NoMethodError)
    else
      var t := DraftRecord.ToNosqlHash(Obsoleted(s, now, inspect));
      Success((true, t.1, [PutOp(t.1.key, t.0.value)]))
  }

  /**
   * `tombstone` as written: line 97 names `DMP_TOMBSTONE_VERSION`, a
   * constant no class in the hierarchy defines, so a registered record
   * raises NameError before anything is changed or put.
   */
  function TombstoneAsWritten(s: DraftRecord.DraftState): (r: Result<bool, RubyError>)
    ensures r == Success(true) ==> false
  {
    var registered :- Registered(s.metadata);
    if !registered then Success(false)
    else Failure(NameError)
  }

  /** As written, `tombstone` never succeeds on a registered record. */
  lemma TombstoneAsWrittenRaises(s: DraftRecord.DraftState)
    requires Registered(s.metadata) == Success(true)
    ensures TombstoneAsWritten(s) == Failure(NameError)
    ensures TombstoneOf(s, "", v => "").Success? <==> s.key.Some?
  {
  }

  /**
   * A registered record with a key is tombstoned: the key keeps its partition
   * and gets `VERSION#tombstone`, the title is prefixed with `OBSOLETE: `,
   * `modified` and `tombstoned` are now, every other metadata entry is kept
   * apart from what `to_nosql_hash` writes, and the one put carries the new
   * key and a hash whose `SK` is the tombstone version.
   */
  lemma TombstoneRegistered(s: DraftRecord.DraftState, now: string, inspect: Json -> string)
    requires Registered(s.metadata) == Success(true) && s.key.Some?
    ensures var r := TombstoneOf(s, now, inspect).value;
      var t := r.1;
      && r.0
      && t.key == Some(DmpKeys.Key(s.key.value.partition, Some(DmpKeys.SORT_KEY_DMP_TOMBSTONE_VERSION)))
      && t.metadata["title"] == JString(OBSOLETE_PREFIX + TitleText(Get(s.metadata, "title"), inspect))
      && t.metadata["modified"] == JString(now) && t.metadata["tombstoned"] == JString(now)
      && t.metadata["SK"] == JString(DmpKeys.SORT_KEY_DMP_TOMBSTONE_VERSION)
      && t.metadata["PK"] == JString(s.key.value.partition)
      && (forall k :: k in s.metadata && !DraftRecord.Written(k) && k !in {"title", "modified", "tombstoned"} ==>
            t.metadata[k] == s.metadata[k])
      && r.2 == [PutOp(t.key, t.metadata)]
      && t.(key := s.key, metadata := s.metadata) == s
  {
    var o := Obsoleted(s, now, inspect);
    DraftRecord.ToNosqlHashFields(o);
  }

  /**
   * Registration decides which of the two acts: `delete` issues calls only
   * for an unregistered record and `tombstone` only for a registered one.
   */
  lemma DeleteOrTombstone(s: DraftRecord.DraftState, now: string, inspect: Json -> string)
    requires Registered(s.metadata).Success? && s.key.Some?
    ensures DeleteOf(s).Success? && TombstoneOf(s, now, inspect).Success?
    ensures DeleteOf(s).value.0 != TombstoneOf(s, now, inspect).value.0
    ensures DeleteOf(s).value.0 ==> TombstoneOf(s, now, inspect).value.2 == [] && TombstoneOf(s, now, inspect).value.1 == s
    ensures TombstoneOf(s, now, inspect).value.0 ==> DeleteOf(s).value.1 == []
  {
  }

  // ---------------------------------------------------------------------------
  // The class
  // ---------------------------------------------------------------------------

  class Dmp {
    /** The draft item this record is. */
    const item: DraftItem.AwsDynamodbItem
    /** `NOSQL_ADAPTER`. */
    const store: Store

    constructor (item: DraftItem.AwsDynamodbItem, store: Store)
      ensures this.item == item && this.store == store
    {
      this.item := item;
      this.store := store;
    }

    /** `registered?` on the item's metadata. */
    method IsRegistered() returns (r: Result<bool, RubyError>)
      ensures r == Registered(item.metadata)
    {
      var empty :- IsEmpty(Get(item.metadata, "registered"));
      return Success(!empty);
    }

    /** `delete`: the `@versions.each` loop of deletes, unless the record is registered. */
    method Delete() returns (r: Result<bool, RubyError>)
      modifies store
      ensures var d := DeleteOf(item.State());
        && (r.Success? <==> d.Success?)
        && (r.Failure? ==> r.error == d.error && store.log == old(store.log))
        && (r.Success? ==> r.value == d.value.0 && store.log == old(store.log) + d.value.1)
    {
      var registered :- IsRegistered();
      if registered {
        return Success(false);
      }
      var versions, key := item.versions, item.key;
      for i := 0 to |versions|
        invariant store.log == old(store.log) + seq(i, _ => DeleteOp(key))
      {
        store.Delete(key);
        assert seq(i + 1, _ => DeleteOp(key)) == seq(i, _ => DeleteOp(key)) + [DeleteOp(key)];
      }
      assert DeleteOf(item.State()).value.1 == seq(|versions|, _ => DeleteOp(key));
      return Success(true);
    }

    /**
     * `tombstone`, with the tombstone sort key it evidently means: the key
     * and the metadata updated in place, then `to_nosql_hash` and one put.
     */
    method Tombstone(now: string, inspect: Json -> string) returns (r: Result<bool, RubyError>)
      modifies item, store
      ensures var t := TombstoneOf(old(item.State()), now, inspect);
        && (r.Success? <==> t.Success?)
        && (r.Failure? ==> r.error == t.error && item.State() == old(item.State()) && store.log == old(store.log))
        && (r.Success? ==> r.value == t.value.0 && item.State() == t.value.1 && store.log == old(store.log) + t.value.2)
    {
      var registered :- IsRegistered();
      if !registered {
        return Success(false);
      }
      if item.key.None? {
        return Failure(NoMethodError);
      }
      item.key := Some(item.key.value.(sort := Some(DmpKeys.SORT_KEY_DMP_TOMBSTONE_VERSION)));
      var title := OBSOLETE_PREFIX + TitleText(Get(item.metadata, "title"), inspect);
      item.metadata := item.metadata["title" := JString(title)];
      item.metadata := item.metadata["modified" := JString(now)];
      item.metadata := item.metadata["tombstoned" := JString(now)];
      assert item.State() == Obsoleted(old(item.State()), now, inspect);
      var hash := item.ToNosqlHash();
      store.Put(item.key, hash.value);
      return Success(true);
    }
  }
}
