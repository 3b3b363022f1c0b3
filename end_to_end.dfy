/**
 * The parts together: what the settings page saves is what PluginSettings
 * reads back, and what the hook resolves from it is a path starting with
 * "/"; and one complete save of a published post.
 */
module EndToEnd {
  import opened Wrappers
  import opened PhpDate
  import opened PluginSettings
  import opened AdminMenu
  import opened CloudFrontInvalidationHook

  /** The option as saved by the settings page, read back by getInvalidationPaths(). */
  lemma SavedOptionReadsBack(options: SubmittedOptions)
    ensures options.invalidationPaths.None? ==> GetInvalidationPaths(Some(Sanitize(options))) == map[]
    ensures options.invalidationPaths.Some? ==>
              GetInvalidationPaths(Some(Sanitize(options))) == SanitizeEntries(options.invalidationPaths.value)
  {
  }

  /**
   * Every template saved through the settings page, whatever the submitted
   * text, resolves for any post to a path that starts with "/".
   */
  lemma SavedTemplatesResolveToAbsolutePaths(options: SubmittedOptions, postType: string, post: Post)
    ensures var templates := GetInvalidationPaths(Some(Sanitize(options)));
            postType in templates ==>
              forall k :: 0 <= k < |templates[postType]| ==>
                var path := ReplacePlaceholder(templates[postType][k], post);
                path != [] && path[0] == '/'
  {
    var templates := GetInvalidationPaths(Some(Sanitize(options)));
    if options.invalidationPaths.Some? && postType in templates {
      SanitizedPathsAreNormal(options.invalidationPaths.value);
      var list := templates[postType];
      forall k | 0 <= k < |list|
        ensures var path := ReplacePlaceholder(list[k], post); path != [] && path[0] == '/'
      {
        assert NormalPath(list[k]);
        ReplacePlaceholderKeepsLeadingSlash(list[k], post);
      }
    }
  }

  /**
   * Publishing post 7 ("launch") with the template "/blog/%slug%" saved for
   * posts, distribution "E123" and dry-run off sends one batch holding
   * "/blog/launch", referenced "7-" followed by the minute.
   */
  method PublishPostScenario(now: DateTime) returns (effects: seq<Effect>)
    requires now.Valid()
    ensures effects == [CreateInvalidation(InvalidationRequest(StringValue("E123"), CallerReference(7, now), ["/blog/launch"], 1))]
  {
    var registry := new Registry();
    var post := Post(7, "launch", "post", "publish");
    var context := RequestContext(false, false, false, false, false);
    var templates := ["/blog/%slug%"];
    var stored := Some(OptionRecord(Some(map["post" := templates])));
    var env := Environment(context, now, stored, false, Constants(None, Some(StringValue("E123"))));
    var filter := (paths: seq<string>, p: Post) => paths;
    var cdn := (request: InvalidationRequest) => Accepted;
    assert !ShouldSkip(post, context, false);
    effects := CloudFrontInvalidation(registry, 7, post, false, env, filter, cdn);
    assert registry.instance.InvalidationPathsFor("post") == templates;
    LaunchResolves(templates, post);
    PipelineSendsOneBatch(post, false, env, templates, filter, cdn);
  }

  /** "/blog/%slug%" for the post with slug "launch" is "/blog/launch". */
  lemma LaunchResolves(templates: seq<string>, post: Post)
    requires templates == ["/blog/%slug%"] && post.postName == "launch"
    ensures ResolvePaths(templates, post) == ["/blog/launch"]
  {
    var template := templates[0];
    var prefix := template[..6];
    assert prefix == "/blog/" && NoPercent(prefix);
    assert template == prefix + SlugToken;
    ReplaceSlugOnly(prefix, post);
    assert SlugOrId(post) == post.postName;
    var paths := ResolvePaths(templates, post);
    assert |paths| == 1 && paths[0] == ReplacePlaceholder(template, post) == prefix + post.postName;
    assert prefix + post.postName == "/blog/launch";
    assert paths == [paths[0]];
  }
}
