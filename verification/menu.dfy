/** Menu item selection in the app layout (frontend/app/src/comps/AppLayout/Menu.tsx):
    which links open externally and which item is highlighted for the current
    path. */
module Menu {
  import opened Common

  /** `isExternalUrl`. */
  predicate IsExternalUrl(url: string) {
    StartsWith(url, "http://") || StartsWith(url, "https://")
  }

  /** The `selected` computed for an item: an internal link that is the
      current path, for the home link "/", or a prefix of it otherwise. */
  predicate Selected(href: string, pathname: string) {
    !IsExternalUrl(href) && (if href == "/" then pathname == "/" else StartsWith(pathname, href))
  }

  /** The `selected` flag the item is rendered with: an external link is
      always rendered unselected. */
  function RenderedSelected(href: string, pathname: string): (b: bool)
    ensures IsExternalUrl(href) ==> !b
    ensures b ==> |href| <= |pathname| && pathname[..|href|] == href
  {
    if IsExternalUrl(href) then false else Selected(href, pathname)
  }

  /** Only the home page selects the home link. */
  lemma HomeSelectedExactly(pathname: string)
    ensures RenderedSelected("/", pathname) <==> pathname == "/"
  {
    assert !StartsWith("/", "http://");
    assert !StartsWith("/", "https://");
  }

  /** Any other internal link is selected exactly on the paths it prefixes:
      its own page and every page below it. */
  lemma InternalSelectedIffPrefix(href: string, pathname: string)
    requires !IsExternalUrl(href) && href != "/"
    ensures RenderedSelected(href, pathname) <==> StartsWith(pathname, href)
    ensures RenderedSelected(href, href + pathname)
  {
    assert (href + pathname)[..|href|] == href;
  }
}
