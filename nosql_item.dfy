/**
 * `Nosql::Item`, the base class of `Nosql::DynamodbDmpItem`
 * (app/services/nosql/item.rb). Its constructor checks the environment and
 * the adapter, sets the empty error list and the empty key, then hands the
 * arguments to `_from_hash`, which a subclass must provide.
 */
module NosqlItem {
  import opened Wrappers
  import opened RubyJson
  import opened DmpKeys

  const MSG_NO_RAILS_HOST: string := "no ENV['RAILS_HOST'] defined!"
  const MSG_NO_ADAPTER: string := "An adapter must be defined"

  /** The key `initialize` starts from: `{ partition_key: '', sort_key: '' }`. */
  const EMPTY_KEY: Key := Key("", Some(""))

  /**
   * The exception the base constructor raises before parsing: `RAILS_HOST`
   * unset, then a missing adapter (or one that is not a `Nosql::Adapter`).
   */
  function ItemGuard(railsHost: Option<string>, hasAdapter: bool): (r: Option<RubyError>)
    ensures r.None? <==> railsHost.Some? && hasAdapter
    ensures railsHost.None? ==> r == Some(ItemError(MSG_NO_RAILS_HOST))
    ensures railsHost.Some? && !hasAdapter ==> r == Some(ItemError(MSG_NO_ADAPTER))
  {
    if railsHost.None? then Some(ItemError(MSG_NO_RAILS_HOST))
    else if !hasAdapter then Some(ItemError(MSG_NO_ADAPTER))
    else None
  }

  /**
   * `Nosql::Item.new(**args)` on the base class itself: after the guards its
   * `_from_hash` raises NotImplementedError, so no base item is ever built
   * and its `to_nosql_hash` and `to_json`, which raise NotImplementedError
   * too, can only be reached through a subclass that overrides them.
   */
  function BaseItemNew(railsHost: Option<string>, hasAdapter: bool): (r: Result<(), RubyError>)
    ensures r.Failure?
    ensures r.error == NotImplementedError <==> ItemGuard(railsHost, hasAdapter).None?
  {
    match ItemGuard(railsHost, hasAdapter)
    case Some(e) => Failure(e)
    case None => Failure(NotImplementedError)
  }
}
