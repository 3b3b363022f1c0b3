/**
 * PluginSettings: read access to the saved option
 * 'wack_cloudfront_invalidation_settings'. An instance takes a snapshot of
 * the option's 'invalidation_paths' map when it is built; the static
 * accessor get() hands out one lazily built instance (a fresh one on every
 * call when the PHPUNIT constant is set).
 *
 * get_option() is not modelled; its result is a StoredOption parameter.
 */
module PluginSettings {
  import opened Wrappers

  /** Post type name to its ordered path templates. */
  type PathMap = map<string, seq<string>>

  /**
   * The saved option array. `invalidationPaths` is None when the array has
   * no 'invalidation_paths' key; an array without that key and the empty
   * array behave alike everywhere below.
   */
  datatype OptionRecord = OptionRecord(invalidationPaths: Option<PathMap>)

  /** What get_option() returns: None stands for `false` (no option saved). */
  type StoredOption = Option<OptionRecord>

  /**
   * getInvalidationPaths(): the 'invalidation_paths' map of the saved
   * option, or the empty map when no option is saved or it lacks the key.
   */
  function GetInvalidationPaths(stored: StoredOption): (paths: PathMap)
    ensures stored.Some? && stored.value.invalidationPaths.Some? ==> paths == stored.value.invalidationPaths.value
    ensures stored.None? || stored.value.invalidationPaths.None? ==> paths == map[]
  {
    if stored.Some? && stored.value.invalidationPaths.Some? then stored.value.invalidationPaths.value
    else map[]
  }

  class Settings {
    /** The snapshot taken at construction; nothing reassigns it. */
    const invalidationPaths: PathMap

    /** The private constructor: reads the option store once. */
    constructor (stored: StoredOption)
      ensures invalidationPaths == GetInvalidationPaths(stored)
    {
      invalidationPaths := GetInvalidationPaths(stored);
    }

    /**
     * invalidationPathsFor(postType): the stored templates for the type, in
     * their stored order, or no templates when the type has no entry.
     */
    function InvalidationPathsFor(postType: string): (templates: seq<string>)
      ensures postType in invalidationPaths ==> templates == invalidationPaths[postType]
      ensures postType !in invalidationPaths ==> templates == []
    {
      if postType in invalidationPaths then invalidationPaths[postType] else []
    }
  }

  /** The static `$instance` slot of the PHP class, and get(). */
  class Registry {
    var instance: Settings?

    /** Before the first get(), no instance exists. */
    constructor ()
      ensures instance == null
    {
      instance := null;
    }

    /**
     * get(): builds an instance from the option store on the first call, or
     * on every call under PHPUNIT; otherwise returns the instance built
     * before, whatever the option store now holds.
     */
    method Get(stored: StoredOption, phpunit: bool) returns (settings: Settings)
      modifies this
      ensures instance == settings
      ensures old(instance) != null && !phpunit ==> settings == old(instance)
      ensures old(instance) == null || phpunit ==>
                fresh(settings) && settings.invalidationPaths == GetInvalidationPaths(stored)
    {
      if instance == null || phpunit {
        instance := new Settings(stored);
      }
      settings := instance;
    }
  }

  /** The cases of tests/PluginSettingsTest.php, on the lookup functions. */
  lemma SettingsTestCases()
    ensures GetInvalidationPaths(Some(OptionRecord(Some(map["post" := ["/posts/*"]]))))
            == map["post" := ["/posts/*"]]
    ensures GetInvalidationPaths(None) == map[]
  {
  }

  /**
   * The invalidationPathsFor cases of tests/PluginSettingsTest.php, each
   * through get() with PHPUNIT set: a stored list comes back in its order,
   * an unknown post type and a missing option give no templates. The three
   * cases share one static slot, as the test methods of one run do, so each
   * later get() sees the option store of its own case.
   */
  method InvalidationPathsForTestCases() returns (found: seq<string>, otherType: seq<string>, noOption: seq<string>)
    ensures found == ["/posts/*", "/article/%id%"]
    ensures otherType == [] && noOption == []
  {
    var registry := new Registry();
    var both := registry.Get(Some(OptionRecord(Some(map["post" := ["/posts/*", "/article/%id%"]]))), true);
    found := both.InvalidationPathsFor("post");
    var one := registry.Get(Some(OptionRecord(Some(map["post" := ["/posts/*"]]))), true);
    otherType := one.InvalidationPathsFor("news");
    var none := registry.Get(None, true);
    noOption := none.InvalidationPathsFor("post");
  }

  /**
   * Outside PHPUNIT the first get() fixes the snapshot: an option saved in
   * between does not reach lookups made through a later get().
   */
  method SnapshotOutlivesLaterSaves(registry: Registry, first: StoredOption, later: StoredOption)
    returns (before: Settings, after: Settings)
    requires registry.instance == null
    modifies registry
    ensures after == before && registry.instance == before
    ensures after.invalidationPaths == GetInvalidationPaths(first)
  {
    before := registry.Get(first, false);
    after := registry.Get(later, false);
  }
}
