/** The header search box (components/DynamicSearch.jsx): a debounced search request, keyboard
    navigation through the result list, and shortened titles in the dropdown. */
module DynamicSearch {
  import opened Base
  import opened Text

  const DebounceMs := 300
  const TitleLimit := 24

  /** One search hit as the dropdown uses it. */
  datatype Hit = Hit(id: int, title: string)

  /** What the search request gave back. */
  datatype SearchReply = Failed | Found(hits: seq<Hit>)

  /** Where the component navigated. */
  datatype Route = PostPage(id: int)

  /** JavaScript's `a % n`: the remainder takes the sign of the dividend. */
  function JsRem(a: int, n: int): (r: int)
    requires n > 0
    ensures a >= 0 ==> 0 <= r < n
    ensures a < 0 ==> -n < r <= 0
    ensures a >= 0 ==> r == a % n
    ensures a < 0 ==> -r == (-a) % n
  {
    if a >= 0 then a % n else -((-a) % n)
  }

  /** The highlighted index after ArrowDown. */
  function ArrowDown(prev: int, n: int): int
    requires n > 0
  {
    JsRem(prev + 1, n)
  }

  /** The highlighted index after ArrowUp. */
  function ArrowUp(prev: int, n: int): int
    requires n > 0
  {
    if prev == 0 then n - 1 else prev - 1
  }

  /** From any index at or after "nothing highlighted" (-1), ArrowDown lands in range and
      steps forward, wrapping from the last hit to the first. */
  lemma ArrowDownWraps(prev: int, n: int)
    requires n > 0 && -1 <= prev
    ensures 0 <= ArrowDown(prev, n) < n
    ensures prev < n - 1 ==> ArrowDown(prev, n) == prev + 1
    ensures prev == n - 1 ==> ArrowDown(prev, n) == 0
  {
  }

  /** Below -1 ArrowDown stays negative, so the highlight stays off the list. */
  lemma ArrowDownBelowStart(prev: int, n: int)
    requires n > 0 && prev < -1
    ensures ArrowDown(prev, n) <= 0
    ensures prev > -n - 1 ==> ArrowDown(prev, n) == prev + 1
  {
  }

  /** ArrowUp wraps 0 to the last hit and steps back inside the list, but from "nothing
      highlighted" it goes to -2, outside the list. */
  lemma ArrowUpSteps(prev: int, n: int)
    requires n > 0
    ensures 0 < prev <= n ==> 0 <= ArrowUp(prev, n) < n
    ensures ArrowUp(0, n) == n - 1
    ensures ArrowUp(-1, n) == -2
  {
  }

  /** The title shown in the dropdown. */
  function DisplayTitle(t: string): (r: string)
    ensures |t| <= TitleLimit ==> r == t
    ensures |t| > TitleLimit ==> |r| == TitleLimit + 3 && r[..TitleLimit] == t[..TitleLimit] && r[TitleLimit..] == "..."
  {
    if |t| > TitleLimit then t[..TitleLimit] + "..." else t
  }

  class SearchBox {
    var query: string
    var hits: seq<Hit>
    var showDropdown: bool
    var highlighted: int
    var navigations: seq<Route>
    /** The argument of the call the debounce timer will run, if one is pending. */
    var pending: Option<string>
    /** Queries actually sent to the server. */
    var requests: seq<string>

    constructor ()
      ensures query == [] && hits == [] && !showDropdown && highlighted == -1
      ensures navigations == [] && pending.None? && requests == []
    {
      query := [];
      hits := [];
      showDropdown := false;
      highlighted := -1;
      navigations := [];
      pending := None;
      requests := [];
    }

    /** The debounced wrapper: clears the pending timer and starts a new one for `q`. */
    method Debounced(q: string)
      modifies this
      ensures pending == Some(q)
      ensures query == old(query) && hits == old(hits) && showDropdown == old(showDropdown)
      ensures highlighted == old(highlighted) && navigations == old(navigations) && requests == old(requests)
    {
      pending := Some(q);
    }

    /** The effect that runs whenever `query` changes. */
    method QueryEffect()
      modifies this
      ensures pending == Some(query) && showDropdown
      ensures query == old(query) && hits == old(hits) && highlighted == old(highlighted)
      ensures navigations == old(navigations) && requests == old(requests)
    {
      Debounced(query);
      showDropdown := true;
    }

    /** The debounce timer fires and runs the search for the last query it was given;
        `reply` is what the request returns if it is sent. */
    method Fire(reply: SearchReply)
      requires pending.Some?
      modifies this
      ensures pending.None?
      ensures var q := old(pending).value;
        && (IsBlank(Js, q) ==> hits == [] && requests == old(requests))
        && (!IsBlank(Js, q) ==>
              requests == old(requests) + [q] && hits == (if reply.Found? then reply.hits else []))
      ensures query == old(query) && showDropdown == old(showDropdown)
      ensures highlighted == old(highlighted) && navigations == old(navigations)
    {
      var q := pending.value;
      pending := None;
      TrimEmptyIffBlank(Js, q);
      if Trim(Js, q) == [] {
        hits := [];
        return;
      }
      requests := requests + [q];
      match reply {
        case Found(h) =>
          hits := h;
        case Failed =>
          hits := [];
      }
    }

    /** `handleKeyDown`. */
    method KeyDown(key: string)
      modifies this
      ensures hits == old(hits) && pending == old(pending) && requests == old(requests)
      ensures old(hits) == [] ==> unchanged(this)
      ensures old(hits) != [] && key == "ArrowDown" ==>
        highlighted == ArrowDown(old(highlighted), |hits|) && query == old(query) &&
        showDropdown == old(showDropdown) && navigations == old(navigations)
      ensures old(hits) != [] && key == "ArrowUp" ==>
        highlighted == ArrowUp(old(highlighted), |hits|) && query == old(query) &&
        showDropdown == old(showDropdown) && navigations == old(navigations)
      ensures old(hits) != [] && key == "Enter" && 0 <= old(highlighted) < |hits| ==>
        query == hits[old(highlighted)].title && !showDropdown && highlighted == -1 &&
        navigations == old(navigations) + [PostPage(hits[old(highlighted)].id)]
      ensures key != "ArrowDown" && key != "ArrowUp" && !(key == "Enter" && 0 <= old(highlighted) < |hits|) ==>
        unchanged(this)
    {
      if |hits| == 0 {
        return;
      }
      if key == "ArrowDown" {
        highlighted := ArrowDown(highlighted, |hits|);
      } else if key == "ArrowUp" {
        highlighted := ArrowUp(highlighted, |hits|);
      } else if key == "Enter" {
        if highlighted >= 0 && highlighted < |hits| {
          var chosen := hits[highlighted];
          query := chosen.title;
          showDropdown := false;
          highlighted := -1;
          navigations := navigations + [PostPage(chosen.id)];
        }
      }
    }
  }
}
