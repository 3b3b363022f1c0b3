/**
 * AdminMenu::optionsSanitizeCallback: turns the submitted settings form
 * (one textarea of path templates per post type) into the option array
 * that is saved and later read by PluginSettings.
 *
 * Each textarea is trimmed and split on "\r\n", "\r" and "\n"; each line is
 * trimmed, blank lines (and lines that PHP's empty() calls empty, i.e.
 * "0") are dropped, and a leading "/" is added where missing. The settings
 * page renders a saved list back into its textarea as implode("\n", list).
 */
module AdminMenu {
  import opened Wrappers
  import opened PhpStrings
  import opened PluginSettings

  /** One submitted value under 'invalidation_paths': a textarea string, or an array. */
  datatype FormValue = Text(text: string) | ArrayValue

  /** The submitted 'invalidation_paths' array: (post type, value) pairs in submission order. */
  type FormEntries = seq<(string, FormValue)>

  /** The submitted option array; `invalidationPaths` is None when that key is not set. */
  datatype SubmittedOptions = SubmittedOptions(invalidationPaths: Option<FormEntries>)

  //--------------------------------------------------------------------------
  // Specification
  //--------------------------------------------------------------------------

  /** A path template as the sanitiser leaves it. */
  predicate NormalPath(p: string) {
    p != [] && p[0] == '/' && IsTrimmed(p) && NoLineBreak(p)
  }

  predicate AllNormal(paths: seq<string>) {
    forall k :: 0 <= k < |paths| ==> NormalPath(paths[k])
  }

  /** The path a line contributes: none for a blank (or "0") line, else the trimmed line with a leading slash. */
  function NormalizeLine(line: string): seq<string> {
    var path := Trim(line);
    if IsEmpty(path) then []
    else if path[0] != '/' then ["/" + path]
    else [path]
  }

  /** The inner loop over the lines of one textarea. */
  function NormalizeLines(lines: seq<string>): seq<string> {
    if lines == [] then [] else NormalizeLine(lines[0]) + NormalizeLines(lines[1..])
  }

  /** The templates one submitted value yields; arrays and empty strings yield none. */
  function ParsePaths(value: FormValue): seq<string> {
    match value
    case ArrayValue => []
    case Text(s) => if IsEmpty(s) then [] else NormalizeLines(SplitLines(Trim(s)))
  }

  /**
   * `$sanitized_options['invalidation_paths'][$postType][] = $path` for each
   * path in turn: the key appears only once a path is appended to it.
   */
  function Appended(paths: PathMap, postType: string, added: seq<string>): PathMap {
    if added == [] then paths
    else paths[postType := (if postType in paths then paths[postType] else []) + added]
  }

  /** The post type of each submitted entry, paired with the templates its value yields. */
  function ParseEntries(entries: FormEntries): (parsed: seq<(string, seq<string>)>)
    ensures |parsed| == |entries|
  {
    seq(|entries|, i requires 0 <= i < |entries| => (entries[i].0, ParsePaths(entries[i].1)))
  }

  /** Appending each pair's templates to its post type, in order. */
  function AppendAll(pairs: seq<(string, seq<string>)>): PathMap {
    if pairs == [] then map[]
    else
      var last := pairs[|pairs| - 1];
      Appended(AppendAll(pairs[..|pairs| - 1]), last.0, last.1)
  }

  /** The outer loop over the submitted entries. */
  function SanitizeEntries(entries: FormEntries): PathMap {
    AppendAll(ParseEntries(entries))
  }

  /** One more entry of the outer loop appends what its value yields. */
  lemma SanitizeEntriesStep(entries: FormEntries, i: nat)
    requires i < |entries|
    ensures AppendAll(ParseEntries(entries)[..i + 1])
            == Appended(AppendAll(ParseEntries(entries)[..i]), entries[i].0, ParsePaths(entries[i].1))
  {
    var parsed := ParseEntries(entries);
    assert parsed[..i + 1][..i] == parsed[..i];
  }

  /** The whole callback: the sanitised array, with no 'invalidation_paths' key when no path survived. */
  function Sanitize(options: SubmittedOptions): OptionRecord {
    match options.invalidationPaths
    case None => OptionRecord(None)
    case Some(entries) =>
      var paths := SanitizeEntries(entries);
      if paths == map[] then OptionRecord(None) else OptionRecord(Some(paths))
  }

  //--------------------------------------------------------------------------
  // The callback
  //--------------------------------------------------------------------------

  /**
   * optionsSanitizeCallback($options). The PHP code also keeps an `$errors`
   * list whose non-empty branch restores the previous option, but nothing
   * ever adds to that list, so the sanitised array is always returned.
   */
  method OptionsSanitizeCallback(options: SubmittedOptions) returns (sanitized: OptionRecord)
    ensures sanitized == Sanitize(options)
  {
    var paths: PathMap := map[];
    if options.invalidationPaths.Some? {
      var entries := options.invalidationPaths.value;
      ghost var parsed := ParseEntries(entries);
      for i := 0 to |entries|
        invariant paths == AppendAll(parsed[..i])
      {
        var (postType, value) := entries[i];
        SanitizeEntriesStep(entries, i);
        // An entry that already arrived as an array is left out.
        if value.ArrayValue? {
          continue;
        }
        if IsEmpty(value.text) {
          continue;
        }
        var lines := SplitLines(Trim(value.text));
        paths := AppendLinePaths(paths, postType, lines);
      }
      assert parsed[..|entries|] == parsed;
    }
    if paths == map[] {
      sanitized := OptionRecord(None);
    } else {
      sanitized := OptionRecord(Some(paths));
    }
  }

  /**
   * The inner foreach of optionsSanitizeCallback over the lines of one
   * textarea: each non-blank trimmed line, given a leading slash, is
   * appended to the list of `postType`.
   */
  method AppendLinePaths(paths: PathMap, postType: string, lines: seq<string>) returns (updated: PathMap)
    ensures updated == Appended(paths, postType, NormalizeLines(lines))
  {
    updated := paths;
    ghost var added: seq<string> := [];
    for j := 0 to |lines|
      invariant added == NormalizeLines(lines[..j])
      invariant updated == Appended(paths, postType, added)
    {
      NormalizeLinesStep(lines, j);
      var path := Trim(lines[j]);
      if IsEmpty(path) {
        continue;
      }
      // A path not starting with "/" is given one.
      if path[0] != '/' {
        path := "/" + path;
      }
      AppendedTwice(paths, postType, added, [path]);
      updated := updated[postType := (if postType in updated then updated[postType] else []) + [path]];
      added := added + [path];
    }
    assert lines[..|lines|] == lines;
  }

  //--------------------------------------------------------------------------
  // Properties
  //--------------------------------------------------------------------------

  /** Appending twice to one key is appending the concatenation. */
  lemma AppendedTwice(paths: PathMap, postType: string, xs: seq<string>, ys: seq<string>)
    ensures Appended(Appended(paths, postType, xs), postType, ys) == Appended(paths, postType, xs + ys)
  {
    if ys == [] {
      assert xs + ys == xs;
    } else if xs == [] {
      assert xs + ys == ys;
    } else {
      var old0 := if postType in paths then paths[postType] else [];
      assert old0 + xs + ys == old0 + (xs + ys);
    }
  }

  /**
   * The lines of a concatenation contribute the paths of each part, in
   * order: paths keep the order of their lines and duplicates are kept.
   */
  lemma {:induction false} NormalizeLinesAppend(a: seq<string>, b: seq<string>)
    ensures NormalizeLines(a + b) == NormalizeLines(a) + NormalizeLines(b)
  {
    if a == [] {
      assert a + b == b;
    } else {
      assert (a + b)[1..] == a[1..] + b;
      NormalizeLinesAppend(a[1..], b);
    }
  }

  /** One more line of the loop contributes that line's path. */
  lemma NormalizeLinesStep(lines: seq<string>, j: nat)
    requires j < |lines|
    ensures NormalizeLines(lines[..j + 1]) == NormalizeLines(lines[..j]) + NormalizeLine(lines[j])
  {
    assert lines[..j + 1] == lines[..j] + [lines[j]];
    NormalizeLinesAppend(lines[..j], [lines[j]]);
    assert NormalizeLines([lines[j]]) == NormalizeLine(lines[j]) + NormalizeLines([]);
  }

  /** Every path a line contributes is a normal path. */
  lemma NormalizeLineIsNormal(line: string)
    requires NoLineBreak(line)
    ensures AllNormal(NormalizeLine(line))
  {
    var path := Trim(line);
    TrimKeepsNoLineBreak(line);
    if !IsEmpty(path) && path[0] != '/' {
      SlashPrefixIsNormal(path);
    }
  }

  /** Putting "/" in front of a trimmed, non-empty line without breaks makes a normal path. */
  lemma SlashPrefixIsNormal(path: string)
    requires path != [] && IsTrimmed(path) && NoLineBreak(path)
    ensures NormalPath("/" + path)
  {
    var p := "/" + path;
    assert p[|p| - 1] == path[|path| - 1];
    forall k | 1 <= k < |p|
      ensures !IsLineBreak(p[k])
    {
      assert p[k] == path[k - 1];
    }
  }

  lemma {:induction false} NormalizeLinesAreNormal(lines: seq<string>)
    requires forall k :: 0 <= k < |lines| ==> NoLineBreak(lines[k])
    ensures AllNormal(NormalizeLines(lines))
  {
    if lines != [] {
      NormalizeLineIsNormal(lines[0]);
      NormalizeLinesAreNormal(lines[1..]);
    }
  }

  /** Every template the sanitiser keeps starts with "/", is trimmed and holds no line break. */
  lemma ParsedPathsAreNormal(value: FormValue)
    ensures AllNormal(ParsePaths(value))
  {
    if value.Text? && !IsEmpty(value.text) {
      NormalizeLinesAreNormal(SplitLines(Trim(value.text)));
    }
  }

  /** Appending only normal paths leaves only normal paths in every list. */
  lemma {:induction false} AppendAllKeepsNormal(pairs: seq<(string, seq<string>)>)
    requires forall i :: 0 <= i < |pairs| ==> AllNormal(pairs[i].1)
    ensures forall postType :: postType in AppendAll(pairs) ==> AllNormal(AppendAll(pairs)[postType])
  {
    if pairs != [] {
      AppendAllKeepsNormal(pairs[..|pairs| - 1]);
    }
  }

  /** The same for every list of the sanitised map. */
  lemma SanitizedPathsAreNormal(entries: FormEntries)
    ensures forall postType :: postType in SanitizeEntries(entries) ==> AllNormal(SanitizeEntries(entries)[postType])
  {
    var parsed := ParseEntries(entries);
    forall i | 0 <= i < |parsed|
      ensures AllNormal(parsed[i].1)
    {
      ParsedPathsAreNormal(entries[i].1);
    }
    AppendAllKeepsNormal(parsed);
  }

  /** Pair i carries at least one template for `postType`. */
  predicate Yields(pairs: seq<(string, seq<string>)>, i: int, postType: string) {
    0 <= i < |pairs| && pairs[i].0 == postType && pairs[i].1 != []
  }

  /** A key is present exactly when some pair appends a template to it. */
  lemma {:induction false} KeyPresentIffSomeYield(pairs: seq<(string, seq<string>)>, postType: string)
    ensures postType in AppendAll(pairs) <==> exists i :: Yields(pairs, i, postType)
  {
    if pairs != [] {
      var n := |pairs|;
      var init := pairs[..n - 1];
      KeyPresentIffSomeYield(init, postType);
      if postType in AppendAll(pairs) {
        if pairs[n - 1].0 == postType && pairs[n - 1].1 != [] {
          assert Yields(pairs, n - 1, postType);
        } else {
          var i :| Yields(init, i, postType);
          assert Yields(pairs, i, postType);
        }
      } else {
        forall i | 0 <= i < n
          ensures !Yields(pairs, i, postType)
        {
          if i < n - 1 {
            assert !Yields(init, i, postType);
          }
        }
      }
    }
  }

  predicate DistinctKeys<V>(pairs: seq<(string, V)>) {
    forall i, j :: 0 <= i < j < |pairs| ==> pairs[i].0 != pairs[j].0
  }

  /** With distinct keys, the list of a key is exactly what its one pair appends. */
  lemma {:induction false} ListOfDistinctKey(pairs: seq<(string, seq<string>)>, i: nat)
    requires DistinctKeys(pairs) && i < |pairs|
    ensures pairs[i].1 == [] ==> pairs[i].0 !in AppendAll(pairs)
    ensures pairs[i].1 != [] ==> pairs[i].0 in AppendAll(pairs) && AppendAll(pairs)[pairs[i].0] == pairs[i].1
  {
    var n := |pairs|;
    var init := pairs[..n - 1];
    var key := pairs[i].0;
    assert DistinctKeys(init);
    if i == n - 1 {
      KeyPresentIffSomeYield(init, key);
      forall k | 0 <= k < |init|
        ensures !Yields(init, k, key)
      {
        assert init[k].0 == pairs[k].0 != key;
      }
    } else {
      ListOfDistinctKey(init, i);
      assert pairs[n - 1].0 != key;
    }
  }

  /** Entry i of the form yields at least one path for `postType`. */
  predicate Contributes(entries: FormEntries, i: int, postType: string) {
    0 <= i < |entries| && entries[i].0 == postType && ParsePaths(entries[i].1) != []
  }

  /**
   * A post type gets a key exactly when one of its submitted values yields
   * a path: arrays, empty strings and all-blank textareas create no key.
   */
  lemma KeyPresentIffSomePath(entries: FormEntries, postType: string)
    ensures postType in SanitizeEntries(entries) <==> exists i :: Contributes(entries, i, postType)
  {
    var parsed := ParseEntries(entries);
    KeyPresentIffSomeYield(parsed, postType);
    forall i | 0 <= i < |entries|
      ensures Yields(parsed, i, postType) <==> Contributes(entries, i, postType)
    {
    }
    if postType in SanitizeEntries(entries) {
      var i :| Yields(parsed, i, postType);
      assert Contributes(entries, i, postType);
    }
  }

  /**
   * With one value per post type (as a PHP array has), the sanitised list of
   * a post type is exactly what its own value yields, and a value that
   * yields nothing leaves no key.
   */
  lemma SanitizedListOfEntry(entries: FormEntries, i: nat)
    requires DistinctKeys(entries) && i < |entries|
    ensures var paths := SanitizeEntries(entries);
            && (ParsePaths(entries[i].1) == [] ==> entries[i].0 !in paths)
            && (ParsePaths(entries[i].1) != [] ==> entries[i].0 in paths && paths[entries[i].0] == ParsePaths(entries[i].1))
  {
    var parsed := ParseEntries(entries);
    assert DistinctKeys(parsed) by {
      assert forall k :: 0 <= k < |parsed| ==> parsed[k].0 == entries[k].0;
    }
    assert parsed[i] == (entries[i].0, ParsePaths(entries[i].1));
    ListOfDistinctKey(parsed, i);
  }

  /** For example, "foo\nbar/baz\n\n" yields ["/foo", "/bar/baz"]. */
  lemma SanitizeExample(raw: string)
    requires raw == "foo\nbar/baz\n\n"
    ensures ParsePaths(Text(raw)) == ["/foo", "/bar/baz"]
  {
    var lines := ["foo", "bar/baz"];
    ExampleTrim(raw);
    ExampleSplit(lines);
    ExampleNormalize(lines);
    assert !IsEmpty(raw);
  }

  lemma ExampleTrim(raw: string)
    requires raw == "foo\nbar/baz\n\n"
    ensures Trim(raw) == "foo\nbar/baz"
  {
    var body, tail := raw[..11], raw[11..];
    assert raw == body + tail;
    assert IsTrimmed(body) && body != [];
    assert forall k :: 0 <= k < |tail| ==> IsTrimmable(tail[k]);
    TrimDropsTrimmableTail(body, tail);
    assert body == "foo\nbar/baz";
  }

  lemma ExampleSplit(lines: seq<string>)
    requires lines == ["foo", "bar/baz"]
    ensures SplitLines("foo\nbar/baz") == lines
  {
    assert Implode("\n", lines) == "foo\nbar/baz";
    assert NoLineBreak(lines[0]) && NoLineBreak(lines[1]);
    SplitLinesImplode("\n", lines);
  }

  lemma ExampleNormalize(lines: seq<string>)
    requires lines == ["foo", "bar/baz"]
    ensures NormalizeLines(lines) == ["/foo", "/bar/baz"]
  {
    NormalizeTwoLines(lines[0], lines[1]);
    assert lines == [lines[0], lines[1]];
    assert "/" + lines[0] == "/foo";
    assert "/" + lines[1] == "/bar/baz";
  }

  /** Two trimmed lines without a leading slash each get one. */
  lemma NormalizeTwoLines(a: string, b: string)
    requires IsTrimmed(a) && !IsEmpty(a) && a[0] != '/'
    requires IsTrimmed(b) && !IsEmpty(b) && b[0] != '/'
    ensures NormalizeLines([a, b]) == ["/" + a, "/" + b]
  {
    NormalizeTrimmedLine(a);
    NormalizeTrimmedLine(b);
    assert [a, b][1..] == [b];
    assert NormalizeLines([b]) == NormalizeLine(b) + NormalizeLines([]);
  }

  /** A line with nothing to trim that does not start with "/" gets one. */
  lemma NormalizeTrimmedLine(line: string)
    requires IsTrimmed(line) && !IsEmpty(line) && line[0] != '/'
    ensures NormalizeLine(line) == ["/" + line]
  {
    TrimTrimmed(line);
  }

  /**
   * Idempotence: re-submitting a saved list as the settings page renders it,
   * implode("\n", list), yields the same list; so does the same text with
   * the line breaks a browser submits ("\r\n") or a lone "\r".
   */
  lemma ResubmitList(sep: string, paths: seq<string>)
    requires IsLineSeparator(sep)
    requires AllNormal(paths)
    ensures ParsePaths(Text(Implode(sep, paths))) == paths
  {
    if paths != [] {
      var s := Implode(sep, paths);
      ImplodeOfNormalIsTrimmed(sep, paths);
      TrimTrimmed(s);
      SplitLinesImplode(sep, paths);
      NormalizeLinesOfNormal(paths);
    }
  }

  /** Normal paths come back unchanged from the line loop. */
  lemma {:induction false} NormalizeLinesOfNormal(paths: seq<string>)
    requires AllNormal(paths)
    ensures NormalizeLines(paths) == paths
  {
    if paths != [] {
      TrimTrimmed(paths[0]);
      NormalizeLinesOfNormal(paths[1..]);
    }
  }

  /** The rendered textarea of a non-empty list of normal paths needs no trimming and is not empty(). */
  lemma {:induction false} ImplodeOfNormalIsTrimmed(sep: string, paths: seq<string>)
    requires IsLineSeparator(sep)
    requires paths != [] && AllNormal(paths)
    ensures var s := Implode(sep, paths); IsTrimmed(s) && s != [] && s[0] == '/' && s[|s| - 1] == paths[|paths| - 1][|paths[|paths| - 1]| - 1]
  {
    if |paths| > 1 {
      ImplodeOfNormalIsTrimmed(sep, paths[1..]);
      var rest := Implode(sep, paths[1..]);
      var s := Implode(sep, paths);
      assert s == paths[0] + sep + rest;
      assert s[|s| - 1] == rest[|rest| - 1];
    }
  }

  /** The stored list of a post type, or none. */
  function Lookup(paths: PathMap, postType: string): seq<string> {
    if postType in paths then paths[postType] else []
  }

  /** The settings form as the page renders it for the listed post types: one textarea each. */
  function RenderedForm(paths: PathMap, postTypes: seq<string>): (form: FormEntries)
    ensures |form| == |postTypes|
  {
    seq(|postTypes|, k requires 0 <= k < |postTypes| => (postTypes[k], Text(Implode("\n", Lookup(paths, postTypes[k])))))
  }

  /**
   * Idempotence of the whole settings page: submitting the rendered form of
   * a sanitised map gives back that map, restricted to the listed post types.
   */
  lemma ResubmitRenderedForm(paths: PathMap, postTypes: seq<string>)
    requires forall postType :: postType in paths ==> paths[postType] != [] && AllNormal(paths[postType])
    requires forall i, j :: 0 <= i < j < |postTypes| ==> postTypes[i] != postTypes[j]
    ensures SanitizeEntries(RenderedForm(paths, postTypes)) == map postType | postType in paths && postType in postTypes :: paths[postType]
  {
    var parsed := ParseEntries(RenderedForm(paths, postTypes));
    forall k | 0 <= k < |parsed|
      ensures parsed[k] == (postTypes[k], Lookup(paths, postTypes[k]))
    {
      ResubmitList("\n", Lookup(paths, postTypes[k]));
    }
    AppendAllOfLookups(parsed, paths, postTypes);
  }

  /** Appending, for distinct keys, each key's stored non-empty list rebuilds the map on those keys. */
  lemma AppendAllOfLookups(pairs: seq<(string, seq<string>)>, paths: PathMap, postTypes: seq<string>)
    requires |pairs| == |postTypes|
    requires forall k :: 0 <= k < |pairs| ==> pairs[k] == (postTypes[k], Lookup(paths, postTypes[k]))
    requires forall i, j :: 0 <= i < j < |postTypes| ==> postTypes[i] != postTypes[j]
    requires forall postType :: postType in paths ==> paths[postType] != []
    ensures AppendAll(pairs) == map postType | postType in paths && postType in postTypes :: paths[postType]
  {
    var result := AppendAll(pairs);
    var expected := map postType | postType in paths && postType in postTypes :: paths[postType];
    assert DistinctKeys(pairs);
    forall postType | postType in result
      ensures postType in expected && result[postType] == expected[postType]
    {
      KeyPresentIffSomeYield(pairs, postType);
      var i :| Yields(pairs, i, postType);
      ListOfDistinctKey(pairs, i);
    }
    forall postType | postType in expected
      ensures postType in result
    {
      var i :| 0 <= i < |postTypes| && postTypes[i] == postType;
      ListOfDistinctKey(pairs, i);
    }
  }

  /** Every list the appends leave behind holds at least one template. */
  lemma {:induction false} AppendAllListsNonEmpty(pairs: seq<(string, seq<string>)>)
    ensures forall postType :: postType in AppendAll(pairs) ==> AppendAll(pairs)[postType] != []
  {
    if pairs != [] {
      AppendAllListsNonEmpty(pairs[..|pairs| - 1]);
    }
  }

  /**
   * Idempotence of the settings page on what it saved: rendering a
   * sanitised map for distinct post types and submitting it again gives
   * back that map, restricted to those post types.
   */
  lemma SanitizedFormResubmits(entries: FormEntries, postTypes: seq<string>)
    requires forall i, j :: 0 <= i < j < |postTypes| ==> postTypes[i] != postTypes[j]
    ensures var saved := SanitizeEntries(entries);
            SanitizeEntries(RenderedForm(saved, postTypes))
            == map postType | postType in saved && postType in postTypes :: saved[postType]
  {
    var saved := SanitizeEntries(entries);
    SanitizedPathsAreNormal(entries);
    AppendAllListsNonEmpty(ParseEntries(entries));
    ResubmitRenderedForm(saved, postTypes);
  }
}
