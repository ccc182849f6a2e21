/**
 * `NosqlAdapter::Item`, the base class of the earlier draft item
 * (app/services/nosql_adapter/item.rb). Its constructor refuses a record that
 * already carries a `dmp_id`, reads `DOI_BASE_URL` and `DOI_SHOULDER` from the
 * environment and refuses empty ones, empties the versions, the metadata and
 * the errors, then hands the arguments to `_from_hash`, which a subclass must
 * provide.
 */
module AdapterItem {
  import opened Wrappers
  import opened RubyJson

  const MSG_NO_DOI_BASE_URL: string := "No ENV['DOI_BASE_URL'] defined!"
  const MSG_NO_DOI_SHOULDER: string := "No ENV['DOI_SHOULDER'] defined!"
  const MSG_NO_DMP_ID_FOR_NEW: string := "No DMP IDs allowed when creating a new item!"
  const MSG_UNABLE_TO_ACQUIRE_NEW_ID: string := "Unable to acquire a new DMP ID after 10 attempts!"

  /** `ENV['DOI_BASE_URL']` and `ENV['DOI_SHOULDER']`; nil when unset. */
  datatype Env = Env(doiBaseUrl: Option<string>, doiShoulder: Option<string>)

  /**
   * The `**args` of `initialize`. `record` holds the String-keyed entries,
   * which `_from_hash` parses, as DynamoDB hands items back with String keys;
   * `symbolDmpId` is what the Symbol key `:dmp_id` holds (nil when absent),
   * the one Symbol key the guards read. A String `'dmp_id'` in the record is
   * not `args[:dmp_id]`.
   */
  datatype Args = Args(record: Hash, symbolDmpId: Json)

  /**
   * The exception `initialize` raises before parsing: a non-nil `:dmp_id`
   * first, then an empty `DOI_BASE_URL`, then an empty `DOI_SHOULDER`. An
   * unset variable is nil, and `nil.empty?` raises NoMethodError.
   */
  function ItemGuard(env: Env, args: Args): (r: Option<RubyError>)
    ensures r.None? <==>
      && args.symbolDmpId == JNull
      && env.doiBaseUrl.Some? && env.doiBaseUrl.value != ""
      && env.doiShoulder.Some? && env.doiShoulder.value != ""
    ensures args.symbolDmpId != JNull ==> r == Some(NoSqlItemError(MSG_NO_DMP_ID_FOR_NEW))
    ensures args.symbolDmpId == JNull && env.doiBaseUrl == Some("") ==> r == Some(NoSqlItemError(MSG_NO_DOI_BASE_URL))
    ensures args.symbolDmpId == JNull && env.doiBaseUrl.Some? && env.doiBaseUrl.value != "" && env.doiShoulder == Some("") ==>
      r == Some(NoSqlItemError(MSG_NO_DOI_SHOULDER))
    ensures r.Some? && r.value.NoSqlItemError? ==>
      r.value.message in {MSG_NO_DMP_ID_FOR_NEW, MSG_NO_DOI_BASE_URL, MSG_NO_DOI_SHOULDER}
    ensures r.Some? && !r.value.NoSqlItemError? ==> r.value == NoMethodError
  {
    if args.symbolDmpId != JNull then Some(NoSqlItemError(MSG_NO_DMP_ID_FOR_NEW))
    else if env.doiBaseUrl.None? then Some(NoMethodError)
    else if env.doiBaseUrl.value == "" then Some(NoSqlItemError(MSG_NO_DOI_BASE_URL))
    else if env.doiShoulder.None? then Some(NoMethodError)
    else if env.doiShoulder.value == "" then Some(NoSqlItemError(MSG_NO_DOI_SHOULDER))
    else None
  }

  /**
   * `NosqlAdapter::Item.new(**args)` on the base class itself: after the
   * guards its `_from_hash` raises NotImplementedError, so no base item is
   * ever built, and its `to_nosql_hash` and `to_json`, which raise
   * NotImplementedError too, are reached only through a subclass that
   * overrides them.
   */
  function BaseItemNew(env: Env, args: Args): (r: Result<(), RubyError>)
    ensures r.Failure?
    ensures r.error == NotImplementedError <==> ItemGuard(env, args).None?
  {
    match ItemGuard(env, args)
    case Some(e) => Failure(e)
    case None => Failure(NotImplementedError)
  }
}
