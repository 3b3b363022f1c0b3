/**
 * Utility::getPostTypes: the public post types the plugin offers settings
 * and REST hooks for, i.e. the registered ones minus WordPress's built-in
 * types. The registered list (get_post_types) is a parameter.
 */
module Utility {

  /** A registered post type object; only its name and label (labelText) are used. */
  datatype PostType = PostType(name: string, labelText: string)

  /**
   * The deny-list of built-in types. 'post' is deliberately absent: its
   * entry is commented out, so posts keep their settings field.
   */
  const DefaultPostTypes: seq<string> :=
    ["page", "attachment", "revision", "nav_menu_item", "wp_template", "wp_template_part"]

  /** xs keeps a subset of the elements of ys, in their original order. */
  predicate IsSubsequence<T(==)>(xs: seq<T>, ys: seq<T>)
    decreases |ys|
  {
    if xs == [] then true
    else if ys == [] then false
    else if xs[0] == ys[0] then IsSubsequence(xs[1..], ys[1..])
    else IsSubsequence(xs, ys[1..])
  }

  /** array_filter over the registered types with a "not on the deny-list" test. */
  function GetPostTypes(registered: seq<PostType>): (kept: seq<PostType>)
    ensures forall t :: t in kept ==> t in registered && t.name !in DefaultPostTypes
    ensures forall t :: t in registered && t.name !in DefaultPostTypes ==> t in kept
    ensures IsSubsequence(kept, registered)
  {
    if registered == [] then []
    else
      var rest := GetPostTypes(registered[1..]);
      if registered[0].name in DefaultPostTypes then
        SubsequenceOfTail(rest, registered);
        rest
      else
        assert ([registered[0]] + rest)[1..] == rest;
        [registered[0]] + rest
  }

  /** A subsequence of the tail is a subsequence of the whole. */
  lemma {:induction false} SubsequenceOfTail<T>(xs: seq<T>, ys: seq<T>)
    requires ys != [] && IsSubsequence(xs, ys[1..])
    ensures IsSubsequence(xs, ys)
    decreases |ys|, 0
  {
    if xs != [] && xs[0] == ys[0] {
      // IsSubsequence(xs, ys) then reduces to IsSubsequence(xs[1..], ys[1..]),
      // which follows from xs being a subsequence of ys[1..].
      SubsequenceDropHead(xs, ys[1..]);
    }
  }

  /** Dropping the first element of a subsequence keeps it a subsequence. */
  lemma {:induction false} SubsequenceDropHead<T>(xs: seq<T>, ys: seq<T>)
    requires xs != [] && IsSubsequence(xs, ys)
    ensures IsSubsequence(xs[1..], ys)
    decreases |ys|, 1
  {
    assert ys != [];
    if xs[0] == ys[0] {
      if xs[1..] != [] {
        SubsequenceOfTail(xs[1..], ys);
      }
    } else {
      SubsequenceDropHead(xs, ys[1..]);
      if xs[1..] != [] {
        SubsequenceOfTail(xs[1..], ys);
      }
    }
  }

  /** Filtering a concatenation filters each part: the order of the kept types is the input order. */
  lemma {:induction false} GetPostTypesAppend(a: seq<PostType>, b: seq<PostType>)
    ensures GetPostTypes(a + b) == GetPostTypes(a) + GetPostTypes(b)
  {
    if a == [] {
      assert a + b == b;
    } else {
      assert (a + b)[1..] == a[1..] + b;
      GetPostTypesAppend(a[1..], b);
    }
  }

  /** 'post' is never filtered out. */
  lemma PostIsKept(registered: seq<PostType>, t: PostType)
    requires t in registered && t.name == "post"
    ensures t in GetPostTypes(registered)
  {
  }

  /** Filtering twice is filtering once. */
  lemma {:induction false} GetPostTypesIdempotent(registered: seq<PostType>)
    ensures GetPostTypes(GetPostTypes(registered)) == GetPostTypes(registered)
  {
    if registered != [] {
      GetPostTypesIdempotent(registered[1..]);
      var rest := GetPostTypes(registered[1..]);
      if registered[0].name !in DefaultPostTypes {
        assert ([registered[0]] + rest)[1..] == rest;
      }
    }
  }
}
