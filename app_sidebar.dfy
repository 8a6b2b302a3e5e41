/** The sidebar's `isActive`: which menu entry is highlighted for the
    current pathname. */
module Sidebar {
  import opened Common

  /** One pattern's test: an exact match, or a pattern ending in '/' that
      the pathname starts with. */
  predicate PatternMatches(pathname: string, p: string) {
    pathname == p || (EndsWith(p, "/") && StartsWith(pathname, p))
  }

  /** `isActive(path)`, with a single path passed as a one-element list.
      A missing or empty pathname is never active. */
  predicate IsActive(pathname: Option<string>, paths: seq<string>) {
    pathname.Some? && pathname.value != "" &&
    exists i | 0 <= i < |paths| :: PatternMatches(pathname.value, paths[i])
  }

  /** The general rules: no pathname, no highlight; an exact match or a
      '/'-ended prefix lights an entry; a list lights when one of its
      patterns does. */
  lemma ActiveRules(pathname: string, paths: seq<string>, i: nat)
    requires pathname != "" && i < |paths|
    ensures !IsActive(None, paths) && !IsActive(Some(""), paths)
    ensures pathname == paths[i] ==> IsActive(Some(pathname), paths)
    ensures EndsWith(paths[i], "/") && StartsWith(pathname, paths[i]) ==> IsActive(Some(pathname), paths)
    ensures IsActive(Some(pathname), paths) <==> exists j | 0 <= j < |paths| :: IsActive(Some(pathname), [paths[j]])
  {
    if IsActive(Some(pathname), paths) {
      var j :| 0 <= j < |paths| && PatternMatches(pathname, paths[j]);
      assert [paths[j]][0] == paths[j];
    }
    if exists j | 0 <= j < |paths| :: IsActive(Some(pathname), [paths[j]]) {
      var j :| 0 <= j < |paths| && IsActive(Some(pathname), [paths[j]]);
      var k :| 0 <= k < 1 && PatternMatches(pathname, [paths[j]][k]);
      assert PatternMatches(pathname, paths[j]);
    }
  }

  const FOODTRUCKS := ["/foodtrucks", "/foodtrucks/"]
  const SPACES := ["/spaces", "/spaces/"]

  /** The food-truck entry lights on its page and on every page below it,
      but not on a page whose name merely starts the same way; the spaces
      entry stays dark on the spaces overview. */
  lemma {:induction false} MenuEntries(rest: string)
    ensures IsActive(Some("/foodtrucks"), FOODTRUCKS)
    ensures IsActive(Some("/foodtrucks/" + rest), FOODTRUCKS)
    ensures !IsActive(Some("/foodtrucksx"), FOODTRUCKS)
    ensures !IsActive(Some("/spaces-overview"), SPACES)
  {
    assert PatternMatches("/foodtrucks", FOODTRUCKS[0]);
    var p := "/foodtrucks/" + rest;
    assert p[..|FOODTRUCKS[1]|] == FOODTRUCKS[1];
    assert PatternMatches(p, FOODTRUCKS[1]);
    assert "/foodtrucksx"[11] != '/';
    assert "/spaces-overview"[7] != '/';
  }
}
