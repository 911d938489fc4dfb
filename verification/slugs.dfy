/** The route slug the navigation builds from a menu item and the category
    page compares against: lower-case, every space replaced by `-`. */
module Slugs {
  import opened Text

  /** `s.toLowerCase().replace(/ /g, '-')`. */
  function Slug(s: string): (r: string)
    ensures |r| == |s|
    ensures forall i :: 0 <= i < |r| ==> r[i] != ' ' && !IsUpper(r[i])
    ensures forall i :: 0 <= i < |s| && s[i] != ' ' ==> r[i] == LowerChar(s[i])
    ensures forall i :: 0 <= i < |s| && s[i] == ' ' ==> r[i] == '-'
  {
    ReplaceAll(Lower(s), ' ', '-')
  }

  /** A slug is its own slug. */
  lemma SlugIdempotent(s: string)
    ensures Slug(Slug(s)) == Slug(s)
  {
    var t := Slug(s);
    assert forall i :: 0 <= i < |t| ==> Slug(t)[i] == t[i];
  }

  /** Strings that differ only in letter case and in spaces versus dashes
      share a slug; in particular a slug ignores case. */
  lemma SlugIgnoresCase(s: string)
    ensures Slug(Lower(s)) == Slug(s)
  {
    assert forall i :: 0 <= i < |s| ==> Slug(Lower(s))[i] == Slug(s)[i];
  }
}
