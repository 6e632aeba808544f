/** Page dispatch of the `DOMContentLoaded` handler (part4/scripts.js): the
    path is compared against each page's suffixes in source order and the
    first page that matches runs. */
module Routes {
  import opened Text

  datatype Route = LoginPage | IndexPage | PlacePage | AddReviewPage | NoPage

  predicate IsLoginPath(path: string)
  {
    EndsWith(path, "/login.html") || EndsWith(path, "login.html")
  }

  predicate IsIndexPath(path: string)
  {
    EndsWith(path, "/index.html") || EndsWith(path, "/client/") || EndsWith(path, "/client")
  }

  predicate IsPlacePath(path: string)
  {
    EndsWith(path, "/place.html") || EndsWith(path, "place.html")
  }

  predicate IsAddReviewPath(path: string)
  {
    EndsWith(path, "/add_review.html") || EndsWith(path, "add_review.html")
  }

  /** A path ending in `s` shows `s`'s `k`-th character from the end at the
      same place. */
  lemma SuffixChar(path: string, s: string, k: nat)
    requires k < |s|
    ensures EndsWith(path, s) ==> k < |path| && path[|path| - 1 - k] == s[|s| - 1 - k]
  {
    if EndsWith(path, s) {
      assert path[|path| - |s|..][|s| - 1 - k] == path[|path| - 1 - k];
    }
  }

  /** What each page test says about the last character of the path and,
      for the `.html` pages, the tenth character from the end. */
  lemma LoginMarks(path: string)
    ensures IsLoginPath(path) ==> |path| >= 10 && path[|path| - 1] == 'l' && path[|path| - 10] == 'l'
  {
    SuffixChar(path, "/login.html", 0);
    SuffixChar(path, "/login.html", 9);
    SuffixChar(path, "login.html", 0);
    SuffixChar(path, "login.html", 9);
  }

  lemma IndexMarks(path: string)
    ensures IsIndexPath(path) ==> |path| >= 7 && (path[|path| - 1] in "/t" || (|path| >= 11 && path[|path| - 10] == 'i'))
  {
    SuffixChar(path, "/index.html", 9);
    SuffixChar(path, "/client/", 0);
    SuffixChar(path, "/client", 0);
  }

  lemma PlaceMarks(path: string)
    ensures IsPlacePath(path) ==> |path| >= 10 && path[|path| - 1] == 'l' && path[|path| - 10] == 'p'
  {
    SuffixChar(path, "/place.html", 0);
    SuffixChar(path, "/place.html", 9);
    SuffixChar(path, "place.html", 0);
    SuffixChar(path, "place.html", 9);
  }

  lemma AddReviewMarks(path: string)
    ensures IsAddReviewPath(path) ==> |path| >= 15 && path[|path| - 1] == 'l' && path[|path| - 10] == 'e'
  {
    SuffixChar(path, "/add_review.html", 0);
    SuffixChar(path, "/add_review.html", 9);
    SuffixChar(path, "add_review.html", 0);
    SuffixChar(path, "add_review.html", 9);
  }

  /** No path matches two pages, so the order of the tests never decides
      which page runs. */
  lemma PagesDisjoint(path: string)
    ensures !(IsLoginPath(path) && IsIndexPath(path))
    ensures !(IsLoginPath(path) && IsPlacePath(path))
    ensures !(IsLoginPath(path) && IsAddReviewPath(path))
    ensures !(IsIndexPath(path) && IsPlacePath(path))
    ensures !(IsIndexPath(path) && IsAddReviewPath(path))
    ensures !(IsPlacePath(path) && IsAddReviewPath(path))
  {
    LoginMarks(path);
    IndexMarks(path);
    PlaceMarks(path);
    AddReviewMarks(path);
  }

  /** First-match dispatch in source order: login, index, place, add review. */
  function Dispatch(path: string): (r: Route)
    ensures r == LoginPage <==> IsLoginPath(path)
    ensures r == IndexPage <==> IsIndexPath(path)
    ensures r == PlacePage <==> IsPlacePath(path)
    ensures r == AddReviewPage <==> IsAddReviewPath(path)
    ensures r == NoPage <==> !IsLoginPath(path) && !IsIndexPath(path) && !IsPlacePath(path) && !IsAddReviewPath(path)
  {
    PagesDisjoint(path);
    if IsLoginPath(path) then LoginPage
    else if IsIndexPath(path) then IndexPage
    else if IsPlacePath(path) then PlacePage
    else if IsAddReviewPath(path) then AddReviewPage
    else NoPage
  }
}
