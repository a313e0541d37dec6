/**
 * The address history of the welcome portal's web browser view: the combo box's
 * item list kept most-recent-first, without two entries for the same normalized
 * URL and with at most `ADDRESS_SIZE` entries, and the enabled state of the
 * navigation actions as the browser's download events set it.
 */
module WebBrowser {
  import opened Wrappers
  import opened JavaStrings

  const ADDRESS_SIZE: nat := 10
  const SCHEME_SEPARATOR: string := "://"
  const DEFAULT_SCHEME: string := "http://"

  /** `getNormalizedURL(url)`: lower-cased, with `http://` in front when there is no scheme separator. */
  function NormalizedURL(url: string): string {
    var lower := ToLowerAscii(url);
    if IndexOf(lower, SCHEME_SEPARATOR) == -1 then DEFAULT_SCHEME + lower else lower
  }

  /** A normalized URL is lower-case and has a scheme separator. */
  lemma NormalizedURLShape(url: string)
    ensures Contains(NormalizedURL(url), SCHEME_SEPARATOR)
    ensures IsLowerAscii(NormalizedURL(url))
  {
    var lower := ToLowerAscii(url);
    LowerIsLower(url);
    IndexOfFinds(lower, SCHEME_SEPARATOR);
    if !Contains(lower, SCHEME_SEPARATOR) {
      DefaultSchemeShape(lower);
    }
  }

  lemma DefaultSchemeShape(lower: string)
    requires IsLowerAscii(lower)
    ensures Contains(DEFAULT_SCHEME + lower, SCHEME_SEPARATOR)
    ensures IsLowerAscii(DEFAULT_SCHEME + lower)
  {
    var u := DEFAULT_SCHEME + lower;
    assert u[4..7] == SCHEME_SEPARATOR;
    assert OccursAt(u, SCHEME_SEPARATOR, 4);
    forall i | 0 <= i < |u| ensures LowerChar(u[i]) == u[i] {
      if i < |DEFAULT_SCHEME| {
        assert u[i] == DEFAULT_SCHEME[i];
      } else {
        assert u[i] == lower[i - |DEFAULT_SCHEME|];
      }
    }
  }

  /** Normalizing a normalized URL changes nothing. */
  lemma NormalizedURLIdempotent(url: string)
    ensures NormalizedURL(NormalizedURL(url)) == NormalizedURL(url)
  {
    var n := NormalizedURL(url);
    NormalizedURLShape(url);
    LowerOfLower(n);
    IndexOfFinds(n, SCHEME_SEPARATOR);
  }

  /** Case does not matter: a URL and its lower-case form normalize alike. */
  lemma NormalizedURLIgnoresCase(url: string)
    ensures NormalizedURL(ToLowerAscii(url)) == NormalizedURL(url)
  {
    LowerIsLower(url);
    LowerOfLower(ToLowerAscii(url));
  }

  /** A URL with a scheme separator normalizes to its lower-case form. */
  lemma NormalizedURLKeepsScheme(url: string)
    requires Contains(url, SCHEME_SEPARATOR)
    ensures NormalizedURL(url) == ToLowerAscii(url)
  {
    var i :| 0 <= i <= |url| && OccursAt(url, SCHEME_SEPARATOR, i);
    assert ToLowerAscii(url)[i..i + 3] == SCHEME_SEPARATOR by {
      assert url[i..i + 3] == SCHEME_SEPARATOR;
      assert url[i] == ':' && url[i + 1] == '/' && url[i + 2] == '/';
    }
    assert OccursAt(ToLowerAscii(url), SCHEME_SEPARATOR, i);
    IndexOfFinds(ToLowerAscii(url), SCHEME_SEPARATOR);
  }

  /** The index of the first item that normalizes like `url`, or -1. */
  function MatchIndex(items: seq<string>, url: string): (r: int)
    ensures -1 <= r < |items|
    ensures r >= 0 ==> NormalizedURL(items[r]) == NormalizedURL(url)
  {
    if items == [] then -1
    else if NormalizedURL(items[0]) == NormalizedURL(url) then 0
    else
      var r := MatchIndex(items[1..], url);
      if r == -1 then -1 else r + 1
  }

  /** The match is the first one, and -1 means there is none at all. */
  lemma {:induction false} MatchIndexIsFirst(items: seq<string>, url: string)
    ensures var r := MatchIndex(items, url);
            (r >= 0 ==> forall j :: 0 <= j < r ==> NormalizedURL(items[j]) != NormalizedURL(url))
            && (r == -1 <==> forall j :: 0 <= j < |items| ==> NormalizedURL(items[j]) != NormalizedURL(url))
  {
    if items != [] && NormalizedURL(items[0]) != NormalizedURL(url) {
      MatchIndexIsFirst(items[1..], url);
      assert forall j :: 1 <= j < |items| ==> items[j] == items[1..][j - 1];
    }
  }

  function RemoveAt(items: seq<string>, i: nat): (r: seq<string>)
    requires i < |items|
    ensures |r| == |items| - 1
  {
    items[..i] + items[i + 1..]
  }

  /**
   * The item list after `navigate(url)`: the earlier entry for the same
   * normalized URL removed, `url` added in front, the oldest entry dropped when
   * the list is then longer than `ADDRESS_SIZE`.
   */
  function AfterNavigate(items: seq<string>, url: string): seq<string> {
    var loc := MatchIndex(items, url);
    var rest := if loc >= 0 then RemoveAt(items, loc) else items;
    var added := [url] + rest;
    if |added| > ADDRESS_SIZE then added[..|added| - 1] else added
  }

  /** No two items normalize to the same URL. */
  predicate DistinctNormalized(items: seq<string>) {
    DistinctKeys(items, NormalizedURL)
  }

  predicate DistinctKeys(xs: seq<string>, key: string -> string) {
    forall i, j :: 0 <= i < j < |xs| ==> key(xs[i]) != key(xs[j])
  }

  /** The URL just visited is the newest entry. */
  lemma NavigateFront(items: seq<string>, url: string)
    ensures |AfterNavigate(items, url)| > 0 && AfterNavigate(items, url)[0] == url
  {
  }

  /** The list stays within `ADDRESS_SIZE`, and grows by one only when `url` is new and there is room. */
  lemma NavigateLength(items: seq<string>, url: string)
    requires |items| <= ADDRESS_SIZE
    ensures var r := AfterNavigate(items, url);
            |r| <= ADDRESS_SIZE
            && (MatchIndex(items, url) >= 0 ==> |r| == |items|)
            && (MatchIndex(items, url) == -1 ==> |r| == if |items| < ADDRESS_SIZE then |items| + 1 else ADDRESS_SIZE)
  {
  }

  /** Apart from the new front entry, the list is the old one without the matching entry, oldest dropped first. */
  lemma NavigateKeepsOrder(items: seq<string>, url: string)
    requires |items| <= ADDRESS_SIZE
    ensures var loc := MatchIndex(items, url);
            var rest := if loc >= 0 then RemoveAt(items, loc) else items;
            var r := AfterNavigate(items, url);
            r[1..] == rest[..|r| - 1]
  {
  }

  /** At most one entry per normalized URL is an invariant of navigation. */
  lemma NavigateKeepsDistinct(items: seq<string>, url: string)
    requires DistinctNormalized(items)
    ensures DistinctNormalized(AfterNavigate(items, url))
  {
    var loc := MatchIndex(items, url);
    MatchIndexIsFirst(items, url);
    var rest := if loc >= 0 then RemoveAt(items, loc) else items;
    ReplaceKeepsDistinct(items, url, loc, NormalizedURL);
    var added := [url] + rest;
    if |added| > ADDRESS_SIZE {
      assert forall i :: 0 <= i < |added| - 1 ==> added[..|added| - 1][i] == added[i];
    }
  }

  /** Removing the element with `x`'s key, if any, and putting `x` in front keeps keys distinct. */
  lemma ReplaceKeepsDistinct(xs: seq<string>, x: string, loc: int, key: string -> string)
    requires DistinctKeys(xs, key) && -1 <= loc < |xs|
    requires loc >= 0 ==> key(xs[loc]) == key(x)
    requires loc == -1 ==> forall j :: 0 <= j < |xs| ==> key(xs[j]) != key(x)
    ensures DistinctKeys([x] + (if loc >= 0 then RemoveAt(xs, loc) else xs), key)
  {
    if loc >= 0 {
      RemoveKeepsDistinct(xs, loc, key);
      PrependKeepsDistinct(x, RemoveAt(xs, loc), key);
    } else {
      PrependKeepsDistinct(x, xs, key);
    }
  }

  /** Removing the element at `loc` keeps keys distinct, and its key is gone from what remains. */
  lemma RemoveKeepsDistinct(xs: seq<string>, loc: nat, key: string -> string)
    requires DistinctKeys(xs, key) && loc < |xs|
    ensures DistinctKeys(RemoveAt(xs, loc), key)
    ensures forall k :: 0 <= k < |xs| - 1 ==> key(RemoveAt(xs, loc)[k]) != key(xs[loc])
  {
    var rest := RemoveAt(xs, loc);
    assert forall k :: 0 <= k < |rest| ==> rest[k] == xs[if k < loc then k else k + 1];
  }

  lemma PrependKeepsDistinct(x: string, rest: seq<string>, key: string -> string)
    requires DistinctKeys(rest, key)
    requires forall k :: 0 <= k < |rest| ==> key(rest[k]) != key(x)
    ensures DistinctKeys([x] + rest, key)
  {
    var added := [x] + rest;
    assert forall k :: 0 < k < |added| ==> added[k] == rest[k - 1];
  }

  /** Visiting the newest entry again leaves the list as it is. */
  lemma NavigateAgainIsStable(items: seq<string>, url: string)
    requires |items| <= ADDRESS_SIZE
    ensures AfterNavigate(AfterNavigate(items, url), url) == AfterNavigate(items, url)
  {
    var r := AfterNavigate(items, url);
    NavigateLength(items, url);
    assert MatchIndex(r, url) == 0;
    assert RemoveAt(r, 0) == r[1..];
  }

  class WebBrowserView {
    /** The combo box's items, newest first. */
    var items: seq<string>
    /** The combo box's text. */
    var text: string
    /** The URLs handed to the browser control, in order. */
    var requested: seq<string>
    var goEnabled: bool
    var stopEnabled: bool
    var refreshEnabled: bool
    var backwardEnabled: bool
    var forwardEnabled: bool

    /** The list is bounded and duplicate-free; stop and refresh are never enabled together. */
    ghost predicate Valid()
      reads this
    {
      |items| <= ADDRESS_SIZE && DistinctNormalized(items) && !(stopEnabled && refreshEnabled)
    }

    /** `makeActions()`: every action starts disabled; the list starts empty. */
    constructor ()
      ensures Valid()
      ensures items == [] && text == [] && requested == []
      ensures !goEnabled && !stopEnabled && !refreshEnabled && !backwardEnabled && !forwardEnabled
    {
      items := [];
      text := [];
      requested := [];
      goEnabled := false;
      stopEnabled := false;
      refreshEnabled := false;
      backwardEnabled := false;
      forwardEnabled := false;
    }

    /** The loop of `navigate(url)`: the first item that normalizes like `url`, or -1. */
    method FindItem(url: string) returns (loc: int)
      ensures loc == MatchIndex(items, url)
    {
      loc := -1;
      var normURL := NormalizedURL(url);
      for i := 0 to |items|
        invariant MatchIndex(items[i..], url) == -1 ==> MatchIndex(items, url) == -1
        invariant MatchIndex(items[i..], url) >= 0 ==> MatchIndex(items, url) == MatchIndex(items[i..], url) + i
      {
        assert items[i..][1..] == items[i + 1..];
        var normItem := NormalizedURL(items[i]);
        if normURL == normItem {
          return i;
        }
      }
      assert items[|items|..] == [];
    }

    /** `navigate(url)`: ask the browser for `url` and record it in the address list. */
    method Navigate(url: string)
      requires Valid()
      modifies this`items, this`requested
      ensures Valid() && items == AfterNavigate(old(items), url) && requested == old(requested) + [url]
    {
      requested := requested + [url];
      var updated := NavigatedItems(url);
      NavigateLength(items, url);
      NavigateKeepsDistinct(items, url);
      items := updated;
    }

    /** The list edits of `navigate(url)`: remove the match, add `url` in front, drop the oldest entry when too long. */
    method NavigatedItems(url: string) returns (updated: seq<string>)
      ensures updated == AfterNavigate(items, url)
    {
      var loc := FindItem(url);
      updated := items;
      if loc != -1 {
        updated := updated[..loc] + updated[loc + 1..];
      }
      updated := [url] + updated;
      if |updated| > ADDRESS_SIZE {
        updated := updated[..|updated| - 1];
      }
    }

    /** `addressCombo.setText(t)`, which runs the modify listener: Go is enabled for non-empty text. */
    method SetText(t: string)
      modifies this`text, this`goEnabled
      ensures text == t && goEnabled == (|t| > 0)
    {
      text := t;
      goEnabled := |t| > 0;
    }

    /** The Go action and the Enter key: navigate to the combo box's text. */
    method Go()
      requires Valid()
      modifies this`items, this`requested
      ensures Valid() && items == AfterNavigate(old(items), text) && requested == old(requested) + [text]
    {
      Navigate(text);
    }

    /** Choosing an item of the list navigates to it unless it is empty. */
    method SelectItem(index: nat)
      requires Valid() && index < |items|
      modifies this`items, this`requested
      ensures Valid()
      ensures |old(items)[index]| > 0 ==>
                items == AfterNavigate(old(items), old(items)[index]) && requested == old(requested) + [old(items)[index]]
      ensures |old(items)[index]| == 0 ==> items == old(items) && requested == old(requested)
    {
      var chosen := items[index];
      if |chosen| > 0 {
        Navigate(chosen);
      }
    }

    /** `openTo(url)`: show `url`, then navigate to it. */
    method OpenTo(url: string)
      requires Valid()
      modifies this`items, this`requested, this`text, this`goEnabled
      ensures Valid() && text == url && goEnabled == (|url| > 0)
      ensures items == AfterNavigate(old(items), url) && requested == old(requested) + [url]
    {
      SetText(url);
      Navigate(url);
    }

    /** The `DownloadBegin` event: Stop on, Refresh off. */
    method DownloadBegin()
      requires Valid()
      modifies this`stopEnabled, this`refreshEnabled
      ensures Valid() && stopEnabled && !refreshEnabled
    {
      stopEnabled := true;
      refreshEnabled := false;
    }

    /**
     * The `DownloadComplete` event given the browser's location (`None`: null)
     * and its history state: with a location, the text shows it, Back and
     * Forward follow the browser, Stop goes off and Refresh on.
     */
    method DownloadComplete(location: Option<string>, canGoBack: bool, canGoForward: bool)
      requires Valid()
      modifies this`text, this`goEnabled, this`backwardEnabled, this`forwardEnabled
      modifies this`stopEnabled, this`refreshEnabled
      ensures Valid()
      ensures location.None? ==>
                text == old(text) && goEnabled == old(goEnabled) && backwardEnabled == old(backwardEnabled)
                && forwardEnabled == old(forwardEnabled) && stopEnabled == old(stopEnabled) && refreshEnabled == old(refreshEnabled)
      ensures location.Some? ==>
                text == location.value && goEnabled == (|location.value| > 0)
                && backwardEnabled == canGoBack && forwardEnabled == canGoForward && !stopEnabled && refreshEnabled
    {
      if location.Some? {
        SetText(location.value);
        backwardEnabled := canGoBack;
        forwardEnabled := canGoForward;
        stopEnabled := false;
        refreshEnabled := true;
      }
    }
  }
}
