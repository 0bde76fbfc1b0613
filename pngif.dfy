/**
 * The documentation site's image toggle (assets/js/pngif.js): every element
 * of class "pngif" has the extension of its `src` swapped between "png" and
 * "gif", once when the page loads and again on every click. Elements are
 * modelled by their `src` strings alone.
 */
module Pngif {

  const Gif: string := "gif"
  const Png: string := "png"

  predicate EndsWith(s: string, suffix: string) {
    |suffix| <= |s| && s[|s| - |suffix|..] == suffix
  }

  /** True when the last character of `src` is 'g' (false for the empty string). */
  predicate LastIsG(src: string) {
    |src| > 0 && src[|src| - 1] == 'g'
  }

  /**
   * `pngif(item)`: drop the last three characters (all of them when there
   * are fewer) and append "gif" if `src` ended in 'g', "png" otherwise.
   */
  function Toggle(src: string): string {
    var name := if |src| >= 3 then src[..|src| - 3] else "";
    if LastIsG(src) then name + Gif else name + Png
  }

  /**
   * The toggle keeps all but the last three characters of `src` and the
   * length of `src` when it has at least three; a shorter `src` becomes
   * exactly "gif" or "png". The result ends in "gif" exactly when `src`
   * ends in 'g', and in "png" otherwise.
   */
  lemma ToggleShape(src: string)
    ensures |src| >= 3 ==> |Toggle(src)| == |src| && src[..|src| - 3] <= Toggle(src)
    ensures |src| < 3 ==> Toggle(src) == Gif || Toggle(src) == Png
    ensures EndsWith(Toggle(src), Gif) <==> LastIsG(src)
    ensures EndsWith(Toggle(src), Png) <==> !LastIsG(src)
  {
  }

  /** Toggling twice restores any `src` that ends in "png" or in "gif". */
  lemma ToggleInvolution(src: string)
    requires EndsWith(src, Png) || EndsWith(src, Gif)
    ensures Toggle(Toggle(src)) == src
  {
    var stem := src[..|src| - 3];
    assert src == stem + src[|src| - 3..];
    assert Toggle(src)[..|src| - 3] == stem;
  }

  /** A "jpg" source becomes "gif" and never comes back: the toggle is not an involution in general. */
  lemma ToggleLosesJpg()
    ensures Toggle("cat.jpg") == "cat.gif"
    ensures Toggle(Toggle("cat.jpg")) == "cat.png"
  {
  }

  /**
   * The load-time loop: every element's `src` is toggled exactly once, in
   * index order.
   */
  method ToggleAll(srcs: array<string>)
    modifies srcs
    ensures forall i :: 0 <= i < srcs.Length ==> srcs[i] == Toggle(old(srcs[i]))
  {
    ghost var loaded := srcs[..];
    for i := 0 to srcs.Length
      invariant forall j :: 0 <= j < i ==> srcs[j] == Toggle(loaded[j])
      invariant forall j :: i <= j < srcs.Length ==> srcs[j] == loaded[j]
    {
      srcs[i] := Toggle(srcs[i]);
    }
  }
}
