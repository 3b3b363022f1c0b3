/**
 * CloudFrontInvalidationHook: on a post save (the save_post action) or at
 * the end of a REST insert (rest_after_insert_{post type}), decides whether
 * to invalidate, resolves the post type's path templates and either logs a
 * dry run or asks CloudFront for an invalidation batch.
 *
 * WordPress's ambient state is explicit: the flags shouldSkip reads are a
 * RequestContext, the PHP constants are a Constants value, the wall clock
 * is a DateTime, the filter 'wack_cf_inv_{post type}_paths' is a function
 * parameter and the createInvalidation call is a function from the request
 * to its outcome. Log lines and the client call are returned, in order, as
 * a sequence of effects.
 */
module CloudFrontInvalidationHook {
  import opened Wrappers
  import opened PhpStrings
  import opened PhpDate
  import opened PluginSettings

  //--------------------------------------------------------------------------
  // Inputs
  //--------------------------------------------------------------------------

  /** The fields of WP_Post the hook reads; post_name is the slug. */
  datatype Post = Post(id: nat, postName: string, postType: string, postStatus: string)

  /**
   * The ambient state shouldSkip reads: DOING_AUTOSAVE, wp_is_post_autosave,
   * wp_is_post_revision, REST_REQUEST (each as PHP truthiness) and whether
   * the action rest_after_insert_post has fired in this request.
   */
  datatype RequestContext = RequestContext(
    doingAutosave: bool,
    isAutosave: bool,
    isRevision: bool,
    restRequest: bool,
    restAfterInsertPostFired: bool)

  /** The value a PHP constant is defined with (the scalar kinds). */
  datatype ConstantValue = BoolValue(b: bool) | IntValue(i: int) | StringValue(s: string)

  /** WACK_CF_INV_DRY_RUN and WACK_CF_INV_DISTRIBUTION_ID; None when not defined. */
  datatype Constants = Constants(dryRun: Option<ConstantValue>, distributionId: Option<ConstantValue>)

  /** Everything outside the post that one invocation depends on. */
  datatype Environment = Environment(
    context: RequestContext,
    now: DateTime,
    stored: StoredOption,
    phpunit: bool,
    constants: Constants)

  /** The createInvalidation arguments: DistributionId and the InvalidationBatch. */
  datatype InvalidationRequest = InvalidationRequest(
    distributionId: ConstantValue,
    callerReference: string,
    items: seq<string>,
    quantity: nat)

  /** How createInvalidation ends: it returns, or throws an AwsException or another Exception. */
  datatype CdnOutcome = Accepted | AwsError(message: string) | OtherError(message: string)

  /**
   * What an invocation does, in order. DryRunLog is the info line
   * '[CloudFront Invalidation Dry Run] Distribution ID: ' + distributionId
   * + ', Paths: ' + json_encode(paths); ErrorLog carries the error line.
   */
  datatype Effect =
    | DryRunLog(distributionId: string, paths: seq<string>)
    | ErrorLog(message: string)
    | CreateInvalidation(request: InvalidationRequest)

  const MissingDistributionIdMessage := "CloudFront Invalidation Error: Distribution ID not defined."
  const AwsErrorPrefix := "CloudFront Invalidation Error (AwsException): "
  const OtherErrorPrefix := "CloudFront Invalidation Error (Exception): "
  const NotDefinedText := "not defined"

  //--------------------------------------------------------------------------
  // PHP value semantics of the constants
  //--------------------------------------------------------------------------

  /** empty() on a scalar: false, 0, "" and "0". */
  predicate IsEmptyValue(v: ConstantValue) {
    match v
    case BoolValue(b) => !b
    case IntValue(i) => i == 0
    case StringValue(s) => IsEmpty(s)
  }

  /** The string a scalar becomes in a concatenation. */
  function ConstantText(v: ConstantValue): string {
    match v
    case BoolValue(b) => if b then "1" else ""
    case IntValue(i) => if i < 0 then "-" + NatToString(-i) else NatToString(i)
    case StringValue(s) => s
  }

  /** Dry run only when the constant is defined and strictly `=== true`. */
  predicate IsDryRun(constants: Constants) {
    constants.dryRun == Some(BoolValue(true))
  }

  /** The distribution ID is defined and not empty(). */
  predicate HasDistributionId(constants: Constants) {
    constants.distributionId.Some? && !IsEmptyValue(constants.distributionId.value)
  }

  //--------------------------------------------------------------------------
  // shouldSkip
  //--------------------------------------------------------------------------

  /**
   * The four statuses skipped outright: auto-draft, draft, inherit and
   * pending. Every other status ('publish', 'future', 'private', 'trash',
   * ...) passes this test.
   */
  predicate IsSkippedStatus(status: string) {
    status == "auto-draft" || status == "draft" || status == "inherit" || status == "pending"
  }

  /**
   * shouldSkip($post, $isRestHook): posts in one of the four skipped
   * statuses, autosaves and revisions are skipped; a save_post call inside a REST request is
   * skipped until rest_after_insert_post has fired, while the REST hook
   * itself is never skipped for that reason.
   */
  function ShouldSkip(post: Post, context: RequestContext, isRestHook: bool): (skip: bool)
    ensures IsSkippedStatus(post.postStatus) ==> skip
    ensures context.doingAutosave || context.isAutosave || context.isRevision ==> skip
    ensures !isRestHook && context.restRequest && !context.restAfterInsertPostFired ==> skip
    ensures skip ==> IsSkippedStatus(post.postStatus)
                     || context.doingAutosave || context.isAutosave || context.isRevision
                     || (!isRestHook && context.restRequest && !context.restAfterInsertPostFired)
  {
    if IsSkippedStatus(post.postStatus) then
      true
    else if context.doingAutosave || context.isAutosave || context.isRevision
            || (!isRestHook && context.restRequest && !context.restAfterInsertPostFired) then
      true
    else
      false
  }

  /**
   * For the REST hook, REST_REQUEST and rest_after_insert_post do not
   * matter: two contexts that agree on the autosave and revision flags
   * decide alike.
   */
  lemma RestHookIgnoresRestState(post: Post, c1: RequestContext, c2: RequestContext)
    requires c1.doingAutosave == c2.doingAutosave && c1.isAutosave == c2.isAutosave
    requires c1.isRevision == c2.isRevision
    ensures ShouldSkip(post, c1, true) == ShouldSkip(post, c2, true)
  {
  }

  /** A post in any other status that is neither an autosave nor a revision reaches the REST hook. */
  lemma RestHookRunsUnlessSkippedStatus(post: Post, context: RequestContext)
    requires !IsSkippedStatus(post.postStatus)
    requires !context.doingAutosave && !context.isAutosave && !context.isRevision
    ensures !ShouldSkip(post, context, true)
  {
  }

  //--------------------------------------------------------------------------
  // replacePlaceholder
  //--------------------------------------------------------------------------

  const IdToken := "%id%"
  const SlugToken := "%slug%"

  /** What %slug% becomes: the slug, or the ID when the slug is empty() ("" or "0"). */
  function SlugOrId(post: Post): string {
    if IsEmpty(post.postName) then NatToString(post.id) else post.postName
  }

  /**
   * replacePlaceholder($path, $post): str_replace of '%id%' by the ID, then
   * of '%slug%' in that result by the slug (or ID).
   */
  function ReplacePlaceholder(template: string, post: Post): string {
    ReplaceAll(ReplaceAll(template, IdToken, NatToString(post.id)), SlugToken, SlugOrId(post))
  }

  /** array_map of replacePlaceholder over the filtered templates. */
  function ResolvePaths(templates: seq<string>, post: Post): (paths: seq<string>)
    ensures |paths| == |templates|
  {
    seq(|templates|, k requires 0 <= k < |templates| => ReplacePlaceholder(templates[k], post))
  }

  /** A piece of a path template: literal text, or one of the two placeholders. */
  datatype Segment = Literal(text: string) | IdPlaceholder | SlugPlaceholder

  function SegmentText(seg: Segment): string {
    match seg
    case Literal(t) => t
    case IdPlaceholder => IdToken
    case SlugPlaceholder => SlugToken
  }

  /** The template a sequence of segments spells. */
  function TemplateText(segs: seq<Segment>): string {
    if segs == [] then [] else SegmentText(segs[0]) + TemplateText(segs[1..])
  }

  /** The intended reading: each placeholder replaced by its value, literals kept. */
  function Expand(segs: seq<Segment>, idText: string, slugText: string): string {
    if segs == [] then []
    else
      var head := match segs[0]
        case Literal(t) => t
        case IdPlaceholder => idText
        case SlugPlaceholder => slugText;
      head + Expand(segs[1..], idText, slugText)
  }

  /** The template after the '%id%' pass: '%slug%' still in place. */
  function AfterIdPass(segs: seq<Segment>, idText: string): string {
    if segs == [] then []
    else
      var head := match segs[0]
        case Literal(t) => t
        case IdPlaceholder => idText
        case SlugPlaceholder => SlugToken;
      head + AfterIdPass(segs[1..], idText)
  }

  predicate NoPercent(t: string) {
    forall k :: 0 <= k < |t| ==> t[k] != '%'
  }

  predicate StartsWith(s: string, prefix: string) {
    |prefix| <= |s| && s[..|prefix|] == prefix
  }

  /**
   * A template that reads one way only: literals hold no '%', and no
   * '%slug%' is directly followed by "id%" (whose '%' would otherwise pair
   * with the closing '%' of '%slug%' in the first pass).
   */
  predicate WellFormed(segs: seq<Segment>) {
    segs == []
    || ((segs[0].Literal? ==> NoPercent(segs[0].text))
        && (segs[0].SlugPlaceholder? ==> !StartsWith(TemplateText(segs[1..]), "id%"))
        && WellFormed(segs[1..]))
  }

  /** No occurrence of `pat` starts inside a '%'-free prefix. */
  lemma NoMatchInPlainPrefix(t: string, rest: string, pat: string)
    requires pat != [] && pat[0] == '%' && NoPercent(t)
    ensures forall i :: 0 <= i < |t| ==> !MatchAt(t + rest, i, pat)
  {
    forall i | 0 <= i < |t|
      ensures !MatchAt(t + rest, i, pat)
    {
      assert (t + rest)[i] == t[i];
    }
  }

  /** The first pass replaces exactly the '%id%' placeholders. */
  lemma {:induction false} IdPass(segs: seq<Segment>, idText: string)
    requires WellFormed(segs)
    ensures ReplaceAll(TemplateText(segs), IdToken, idText) == AfterIdPass(segs, idText)
  {
    if segs != [] {
      var rest := TemplateText(segs[1..]);
      IdPass(segs[1..], idText);
      match segs[0]
      case Literal(t) =>
        NoMatchInPlainPrefix(t, rest, IdToken);
        ReplaceAllSkipsPrefix(t, rest, IdToken, idText);
      case IdPlaceholder =>
        ReplaceAllAtMatch(rest, IdToken, idText);
      case SlugPlaceholder =>
        SlugTokenHoldsNoId(rest);
        ReplaceAllSkipsPrefix(SlugToken, rest, IdToken, idText);
    }
  }

  /** '%id%' does not start inside '%slug%' unless the text after it starts with "id%". */
  lemma SlugTokenHoldsNoId(rest: string)
    requires !StartsWith(rest, "id%")
    ensures forall i :: 0 <= i < |SlugToken| ==> !MatchAt(SlugToken + rest, i, IdToken)
  {
    var s := SlugToken + rest;
    forall i | 0 <= i < |SlugToken|
      ensures !MatchAt(s, i, IdToken)
    {
      if i + 4 <= |s| {
        var m := s[i..i + 4];
        assert m[0] == s[i] == SlugToken[i] && m[1] == s[i + 1];
        if i == 5 {
          assert m[1..] == rest[..3];
        }
      }
    }
  }

  /** The second pass replaces exactly the '%slug%' placeholders. */
  lemma {:induction false} SlugPass(segs: seq<Segment>, idText: string, slugText: string)
    requires WellFormed(segs) && NoPercent(idText)
    ensures ReplaceAll(AfterIdPass(segs, idText), SlugToken, slugText) == Expand(segs, idText, slugText)
  {
    if segs != [] {
      var rest := AfterIdPass(segs[1..], idText);
      SlugPass(segs[1..], idText, slugText);
      match segs[0]
      case Literal(t) =>
        NoMatchInPlainPrefix(t, rest, SlugToken);
        ReplaceAllSkipsPrefix(t, rest, SlugToken, slugText);
      case IdPlaceholder =>
        NoMatchInPlainPrefix(idText, rest, SlugToken);
        ReplaceAllSkipsPrefix(idText, rest, SlugToken, slugText);
      case SlugPlaceholder =>
        ReplaceAllAtMatch(rest, SlugToken, slugText);
    }
  }

  /**
   * replacePlaceholder against its reading: every '%id%' becomes the ID and
   * every '%slug%' the slug (or the ID when the slug is empty()), and the
   * text substituted for a placeholder is never scanned again, so a slug
   * that itself contains '%id%' is kept literally.
   */
  lemma ReplacePlaceholderExpands(segs: seq<Segment>, post: Post)
    requires WellFormed(segs)
    ensures ReplacePlaceholder(TemplateText(segs), post) == Expand(segs, NatToString(post.id), SlugOrId(post))
  {
    var idText := NatToString(post.id);
    assert NoPercent(idText);
    IdPass(segs, idText);
    SlugPass(segs, idText, SlugOrId(post));
  }

  /** A template containing neither placeholder is returned unchanged. */
  lemma ReplacePlaceholderWithoutTokens(template: string, post: Post)
    requires forall i :: 0 <= i < |template| ==> !MatchAt(template, i, IdToken)
    requires forall i :: 0 <= i < |template| ==> !MatchAt(template, i, SlugToken)
    ensures ReplacePlaceholder(template, post) == template
  {
    ReplaceAllNoMatch(template, IdToken, NatToString(post.id));
    ReplaceAllNoMatch(template, SlugToken, SlugOrId(post));
  }

  /** A template starting with '/' resolves to a path starting with '/'. */
  lemma ReplacePlaceholderKeepsLeadingSlash(template: string, post: Post)
    requires template != [] && template[0] == '/'
    ensures var path := ReplacePlaceholder(template, post); path != [] && path[0] == '/'
  {
    var mid := ReplaceAll(template, IdToken, NatToString(post.id));
    ReplaceAllKeepsHead(template, IdToken, NatToString(post.id));
    ReplaceAllKeepsHead(mid, SlugToken, SlugOrId(post));
  }

  /** A template of the form prefix + '%id%' + middle + '%slug%', with '%'-free literals. */
  lemma ReplaceIdThenSlug(prefix: string, middle: string, post: Post)
    requires NoPercent(prefix) && NoPercent(middle)
    ensures ReplacePlaceholder(prefix + IdToken + middle + SlugToken, post)
            == prefix + NatToString(post.id) + middle + SlugOrId(post)
  {
    var tail2 := [SlugPlaceholder];
    var tail1 := [Literal(middle)] + tail2;
    var tail0 := [IdPlaceholder] + tail1;
    var segs := [Literal(prefix)] + tail0;
    assert tail2[1..] == [] && tail1[1..] == tail2 && tail0[1..] == tail1 && segs[1..] == tail0;
    assert TemplateText(tail2) == SlugToken;
    assert TemplateText(tail1) == middle + SlugToken;
    assert TemplateText(tail0) == IdToken + (middle + SlugToken);
    assert TemplateText(segs) == prefix + (IdToken + (middle + SlugToken));
    assert WellFormed(tail2) && WellFormed(tail1) && WellFormed(tail0) && WellFormed(segs);
    var idText, slugText := NatToString(post.id), SlugOrId(post);
    assert Expand(tail2, idText, slugText) == slugText;
    assert Expand(tail1, idText, slugText) == middle + slugText;
    assert Expand(tail0, idText, slugText) == idText + (middle + slugText);
    assert Expand(segs, idText, slugText) == prefix + (idText + (middle + slugText));
    ReplacePlaceholderExpands(segs, post);
    assert prefix + (IdToken + (middle + SlugToken)) == prefix + IdToken + middle + SlugToken;
    assert prefix + (idText + (middle + slugText)) == prefix + idText + middle + slugText;
  }

  /** A template of the form prefix + '%slug%', with a '%'-free prefix. */
  lemma ReplaceSlugOnly(prefix: string, post: Post)
    requires NoPercent(prefix)
    ensures ReplacePlaceholder(prefix + SlugToken, post) == prefix + SlugOrId(post)
  {
    var tail := [SlugPlaceholder];
    var segs := [Literal(prefix)] + tail;
    assert tail[1..] == [] && segs[1..] == tail;
    assert TemplateText(tail) == SlugToken;
    assert TemplateText(segs) == prefix + SlugToken;
    assert WellFormed(tail) && WellFormed(segs);
    var idText, slugText := NatToString(post.id), SlugOrId(post);
    assert Expand(tail, idText, slugText) == slugText;
    assert Expand(segs, idText, slugText) == prefix + slugText;
    ReplacePlaceholderExpands(segs, post);
  }

  /** "/posts/%id%/%slug%" for post 42 with slug "hello" is "/posts/42/hello". */
  lemma ExampleWithSlug(template: string, post: Post)
    requires template == "/posts/%id%/%slug%"
    requires post.id == 42 && post.postName == "hello"
    ensures ReplacePlaceholder(template, post) == "/posts/42/hello"
  {
    var prefix, middle := template[..7], template[11..12];
    assert template == prefix + IdToken + middle + SlugToken;
    ReplaceIdThenSlug(prefix, middle, post);
    assert NatToString(42) == "42";
  }

  /** The same template for post 42 without a slug (or with the slug "0") is "/posts/42/42". */
  lemma ExampleWithoutSlug(template: string, post: Post)
    requires template == "/posts/%id%/%slug%"
    requires post.id == 42 && (post.postName == "" || post.postName == "0")
    ensures ReplacePlaceholder(template, post) == "/posts/42/42"
  {
    var prefix, middle := template[..7], template[11..12];
    assert template == prefix + IdToken + middle + SlugToken;
    ReplaceIdThenSlug(prefix, middle, post);
    assert NatToString(42) == "42";
  }

  //--------------------------------------------------------------------------
  // The caller reference
  //--------------------------------------------------------------------------

  /** $post->ID . '-' . date('YmdHi'). */
  function CallerReference(id: nat, now: DateTime): (reference: string)
    requires now.Valid()
    ensures |reference| == |NatToString(id)| + 13
  {
    NatToString(id) + "-" + FormatYmdHi(now)
  }

  /** Saves of one post within one minute share a caller reference. */
  lemma CallerReferenceSameMinute(id: nat, a: DateTime, b: DateTime)
    requires a.Valid() && b.Valid() && a.SameMinute(b)
    ensures CallerReference(id, a) == CallerReference(id, b)
  {
    FormatIgnoresSeconds(a, b);
  }

  /** Equal caller references come from the same post in the same minute. */
  lemma CallerReferenceDistinguishes(id1: nat, id2: nat, a: DateTime, b: DateTime)
    requires a.Valid() && b.Valid()
    requires CallerReference(id1, a) == CallerReference(id2, b)
    ensures id1 == id2 && a.SameMinute(b)
  {
    var r := CallerReference(id1, a);
    var n := |NatToString(id1)|;
    assert |NatToString(id2)| == n;
    assert r[..n] == NatToString(id1) && r[..n] == NatToString(id2);
    NatToStringInjective(id1, id2);
    assert r[n + 1..] == FormatYmdHi(a) && r[n + 1..] == FormatYmdHi(b);
    FormatDistinguishesMinutes(a, b);
  }

  //--------------------------------------------------------------------------
  // executeInvalidation
  //--------------------------------------------------------------------------

  /** The batch executeInvalidation sends. */
  function BatchFor(distributionId: ConstantValue, paths: seq<string>, callerReference: string): InvalidationRequest {
    InvalidationRequest(distributionId, callerReference, paths, |paths|)
  }

  /**
   * What executeInvalidation does: with no usable distribution ID, one
   * error line and no client call; otherwise one createInvalidation call
   * whose batch holds the paths in order with Quantity = count(paths),
   * followed by an error line when the call throws. Nothing propagates.
   */
  function Execution(paths: seq<string>, callerReference: string, constants: Constants,
                     cdn: InvalidationRequest -> CdnOutcome): (effects: seq<Effect>)
    ensures (exists k :: 0 <= k < |effects| && effects[k].CreateInvalidation?) <==> HasDistributionId(constants)
    ensures forall k :: 0 <= k < |effects| && effects[k].CreateInvalidation? ==>
              k == 0 && effects[k].request.items == paths && effects[k].request.quantity == |paths|
              && effects[k].request.callerReference == callerReference
              && Some(effects[k].request.distributionId) == constants.distributionId
    ensures !HasDistributionId(constants) ==> effects == [ErrorLog(MissingDistributionIdMessage)]
    ensures HasDistributionId(constants) ==>
              var outcome := cdn(BatchFor(constants.distributionId.value, paths, callerReference));
              (outcome.Accepted? <==> |effects| == 1)
              && (outcome.AwsError? ==> effects[1..] == [ErrorLog(AwsErrorPrefix + outcome.message)])
              && (outcome.OtherError? ==> effects[1..] == [ErrorLog(OtherErrorPrefix + outcome.message)])
  {
    if !HasDistributionId(constants) then
      [ErrorLog(MissingDistributionIdMessage)]
    else
      var request := BatchFor(constants.distributionId.value, paths, callerReference);
      var call := [CreateInvalidation(request)];
      assert call[0].CreateInvalidation?;
      assert forall tail: seq<Effect> :: (call + tail)[0] == call[0];
      match cdn(request)
      case Accepted => call
      case AwsError(m) => call + [ErrorLog(AwsErrorPrefix + m)]
      case OtherError(m) => call + [ErrorLog(OtherErrorPrefix + m)]
  }

  /** executeInvalidation($paths, $callerReferenceID), with its early return and try/catch. */
  method ExecuteInvalidation(paths: seq<string>, callerReference: string, constants: Constants,
                             cdn: InvalidationRequest -> CdnOutcome) returns (effects: seq<Effect>)
    ensures effects == Execution(paths, callerReference, constants, cdn)
  {
    if constants.distributionId.None? || IsEmptyValue(constants.distributionId.value) {
      effects := [ErrorLog(MissingDistributionIdMessage)];
      return;
    }
    var request := BatchFor(constants.distributionId.value, paths, callerReference);
    effects := [CreateInvalidation(request)];
    var outcome := cdn(request);
    match outcome {
      case Accepted =>
      case AwsError(message) =>
        effects := effects + [ErrorLog(AwsErrorPrefix + message)];
      case OtherError(message) =>
        effects := effects + [ErrorLog(OtherErrorPrefix + message)];
    }
  }

  //--------------------------------------------------------------------------
  // invalidateForPost
  //--------------------------------------------------------------------------

  /** The distribution ID as the dry-run line shows it. */
  function DistributionText(constants: Constants): string {
    if constants.distributionId.Some? then ConstantText(constants.distributionId.value) else NotDefinedText
  }

  /** The steps after the settings lookup, given the filter's output. */
  function Dispatch(post: Post, filtered: seq<string>, env: Environment,
                    cdn: InvalidationRequest -> CdnOutcome): seq<Effect>
    requires env.now.Valid()
  {
    if filtered == [] then []
    else
      var paths := ResolvePaths(filtered, post);
      if IsDryRun(env.constants) then [DryRunLog(DistributionText(env.constants), paths)]
      else Execution(paths, CallerReference(post.id, env.now), env.constants, cdn)
  }

  /** The whole invocation, given the templates the settings hold for the post type. */
  function Pipeline(post: Post, isRestHook: bool, env: Environment, templates: seq<string>,
                    filter: (seq<string>, Post) -> seq<string>,
                    cdn: InvalidationRequest -> CdnOutcome): seq<Effect>
    requires env.now.Valid()
  {
    if ShouldSkip(post, env.context, isRestHook) then []
    else Dispatch(post, filter(templates, post), env, cdn)
  }

  /**
   * invalidateForPost($post, $isRestHook). A skipped post returns before
   * the settings are touched; otherwise PluginSettings::get() is asked for
   * the post type's templates and the effects are those of Pipeline.
   */
  method InvalidateForPost(registry: Registry, post: Post, isRestHook: bool, env: Environment,
                           filter: (seq<string>, Post) -> seq<string>,
                           cdn: InvalidationRequest -> CdnOutcome) returns (effects: seq<Effect>)
    requires env.now.Valid()
    modifies registry
    ensures ShouldSkip(post, env.context, isRestHook) ==>
              effects == [] && registry.instance == old(registry.instance)
    ensures !ShouldSkip(post, env.context, isRestHook) ==>
              registry.instance != null
              && (old(registry.instance) != null && !env.phpunit ==> registry.instance == old(registry.instance))
              && (old(registry.instance) == null || env.phpunit ==>
                    registry.instance.invalidationPaths == GetInvalidationPaths(env.stored))
              && effects == Pipeline(post, isRestHook, env, registry.instance.InvalidationPathsFor(post.postType), filter, cdn)
  {
    if ShouldSkip(post, env.context, isRestHook) {
      effects := [];
      return;
    }
    // The reference changes once a minute, so repeated saves within a minute share one request key.
    var callerReference := CallerReference(post.id, env.now);
    var settings := registry.Get(env.stored, env.phpunit);
    var paths := settings.InvalidationPathsFor(post.postType);
    paths := filter(paths, post);
    if paths == [] {
      effects := [];
      return;
    }
    paths := ResolvePaths(paths, post);
    if IsDryRun(env.constants) {
      effects := [DryRunLog(DistributionText(env.constants), paths)];
    } else {
      effects := ExecuteInvalidation(paths, callerReference, env.constants, cdn);
    }
  }

  /** cloudFrontInvalidation: the save_post callback. */
  method CloudFrontInvalidation(registry: Registry, postId: nat, post: Post, update: bool, env: Environment,
                                filter: (seq<string>, Post) -> seq<string>,
                                cdn: InvalidationRequest -> CdnOutcome) returns (effects: seq<Effect>)
    requires env.now.Valid()
    modifies registry
    ensures ShouldSkip(post, env.context, false) ==> effects == [] && registry.instance == old(registry.instance)
    ensures !ShouldSkip(post, env.context, false) ==>
              registry.instance != null
              && (old(registry.instance) != null && !env.phpunit ==> registry.instance == old(registry.instance))
              && (old(registry.instance) == null || env.phpunit ==>
                    registry.instance.invalidationPaths == GetInvalidationPaths(env.stored))
              && effects == Pipeline(post, false, env, registry.instance.InvalidationPathsFor(post.postType), filter, cdn)
  {
    effects := InvalidateForPost(registry, post, false, env, filter, cdn);
  }

  /** cloudFrontInvalidationAfterRest: the rest_after_insert_{post type} callback. */
  method CloudFrontInvalidationAfterRest(registry: Registry, post: Post, creating: bool, env: Environment,
                                         filter: (seq<string>, Post) -> seq<string>,
                                         cdn: InvalidationRequest -> CdnOutcome) returns (effects: seq<Effect>)
    requires env.now.Valid()
    modifies registry
    ensures ShouldSkip(post, env.context, true) ==> effects == [] && registry.instance == old(registry.instance)
    ensures !ShouldSkip(post, env.context, true) ==>
              registry.instance != null
              && (old(registry.instance) != null && !env.phpunit ==> registry.instance == old(registry.instance))
              && (old(registry.instance) == null || env.phpunit ==>
                    registry.instance.invalidationPaths == GetInvalidationPaths(env.stored))
              && effects == Pipeline(post, true, env, registry.instance.InvalidationPathsFor(post.postType), filter, cdn)
  {
    effects := InvalidateForPost(registry, post, true, env, filter, cdn);
  }

  //--------------------------------------------------------------------------
  // Properties of the invocation
  //--------------------------------------------------------------------------

  /**
   * The client is called exactly when the post is not skipped, the filter
   * returns some paths, dry-run is off and a distribution ID is set; the
   * batch then holds the filter's output resolved in order (the settings'
   * templates matter only through the filter), its count, and the
   * ID-YmdHi caller reference.
   */
  lemma PipelineCallsClient(post: Post, isRestHook: bool, env: Environment, templates: seq<string>,
                            filter: (seq<string>, Post) -> seq<string>,
                            cdn: InvalidationRequest -> CdnOutcome)
    requires env.now.Valid()
    ensures var effects := Pipeline(post, isRestHook, env, templates, filter, cdn);
            (exists k :: 0 <= k < |effects| && effects[k].CreateInvalidation?)
            <==> (!ShouldSkip(post, env.context, isRestHook) && filter(templates, post) != []
                  && !IsDryRun(env.constants) && HasDistributionId(env.constants))
    ensures var effects := Pipeline(post, isRestHook, env, templates, filter, cdn);
            forall k :: 0 <= k < |effects| && effects[k].CreateInvalidation? ==>
              effects[k].request.items == ResolvePaths(filter(templates, post), post)
              && effects[k].request.quantity == |filter(templates, post)|
              && effects[k].request.callerReference == CallerReference(post.id, env.now)
  {
  }

  /**
   * A post that passes the gate, with paths from the filter, dry-run off, a
   * distribution ID and a call that succeeds, causes exactly one
   * createInvalidation call and nothing else.
   */
  lemma PipelineSendsOneBatch(post: Post, isRestHook: bool, env: Environment, templates: seq<string>,
                              filter: (seq<string>, Post) -> seq<string>,
                              cdn: InvalidationRequest -> CdnOutcome)
    requires env.now.Valid() && !ShouldSkip(post, env.context, isRestHook)
    requires filter(templates, post) != [] && !IsDryRun(env.constants) && HasDistributionId(env.constants)
    requires cdn(BatchFor(env.constants.distributionId.value, ResolvePaths(filter(templates, post), post),
                          CallerReference(post.id, env.now))) == Accepted
    ensures Pipeline(post, isRestHook, env, templates, filter, cdn)
            == [CreateInvalidation(BatchFor(env.constants.distributionId.value, ResolvePaths(filter(templates, post), post),
                                            CallerReference(post.id, env.now)))]
  {
  }

  /** Nothing at all happens (no log, no call) when the filter returns no paths. */
  lemma EmptyFilterOutputDoesNothing(post: Post, isRestHook: bool, env: Environment, templates: seq<string>,
                                     filter: (seq<string>, Post) -> seq<string>,
                                     cdn: InvalidationRequest -> CdnOutcome)
    requires env.now.Valid() && filter(templates, post) == []
    ensures Pipeline(post, isRestHook, env, templates, filter, cdn) == []
  {
  }

  /** In dry-run mode the only effect is the info line, with "not defined" when no ID is set. */
  lemma DryRunOnlyLogs(post: Post, isRestHook: bool, env: Environment, templates: seq<string>,
                       filter: (seq<string>, Post) -> seq<string>,
                       cdn: InvalidationRequest -> CdnOutcome)
    requires env.now.Valid() && IsDryRun(env.constants)
    requires !ShouldSkip(post, env.context, isRestHook) && filter(templates, post) != []
    ensures Pipeline(post, isRestHook, env, templates, filter, cdn)
            == [DryRunLog(DistributionText(env.constants), ResolvePaths(filter(templates, post), post))]
    ensures env.constants.distributionId.None? ==> DistributionText(env.constants) == NotDefinedText
  {
  }
}
