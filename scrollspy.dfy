/** The active-heading tracking of the blog detail page: `activeId`, the `isScrollingRef`
    flag a TOC click raises to mute the intersection observer, and `initializedRef`, which
    lets the first TOC entry be activated once per post. Timers and the observer are events;
    the DOM is the inputs those events carry. */
module ScrollSpy {
  import opened Wrappers

  /** The fixed header height and the extra gap `handleTocClick` leaves above a heading. */
  const HeaderHeight: int := 80
  const ScrollGap: int := 24

  /** One `IntersectionObserverEntry`: the heading's id, whether it crosses the root margin,
      and its `offsetTop`. */
  datatype Entry = Entry(id: string, isIntersecting: bool, offsetTop: int)

  /** `entries.filter(e => e.isIntersecting).sort(by offsetTop)[0]`, as an index into the
      entries: the sort is stable, so it is the first of the least `offsetTop`. */
  function FirstVisible(es: seq<Entry>): (r: Option<nat>)
    ensures r.Some? ==> r.value < |es| && es[r.value].isIntersecting
  {
    if es == [] then None
    else
      var rest := FirstVisible(es[1..]);
      if es[0].isIntersecting && (rest.None? || es[0].offsetTop <= es[rest.value + 1].offsetTop) then Some(0)
      else if rest.Some? then Some(rest.value + 1)
      else None
  }

  /** There is a first visible entry exactly when some entry intersects. */
  lemma {:induction false} FirstVisibleNone(es: seq<Entry>)
    ensures FirstVisible(es).None? <==> forall j :: 0 <= j < |es| ==> !es[j].isIntersecting
  {
    if es != [] {
      FirstVisibleNone(es[1..]);
      assert forall j :: 1 <= j < |es| ==> es[j] == es[1..][j - 1];
    }
  }

  /** The entry chosen has the least `offsetTop` of the intersecting entries, and every
      intersecting entry before it lies strictly lower. */
  lemma {:induction false} FirstVisibleLeast(es: seq<Entry>)
    requires FirstVisible(es).Some?
    ensures var k := FirstVisible(es).value;
      forall j :: 0 <= j < |es| && es[j].isIntersecting ==> es[k].offsetTop <= es[j].offsetTop
    ensures var k := FirstVisible(es).value;
      forall j :: 0 <= j < k && es[j].isIntersecting ==> es[k].offsetTop < es[j].offsetTop
  {
    var rest := FirstVisible(es[1..]);
    assert forall j :: 1 <= j < |es| ==> es[j] == es[1..][j - 1];
    if rest.Some? {
      FirstVisibleLeast(es[1..]);
    } else {
      FirstVisibleNone(es[1..]);
    }
  }

  /** Where `handleTocClick` scrolls to for an element at page position `position`
      (`getBoundingClientRect().top + pageYOffset`); no element, no scroll. */
  function ClickScroll(position: Option<int>): (r: Option<int>)
    ensures r.Some? <==> position.Some?
    ensures r.Some? ==> r.value + HeaderHeight + ScrollGap == position.value
  {
    match position
    case None => None
    case Some(p) => Some(p - HeaderHeight - ScrollGap)
  }

  /** The page's tracking state.
      `activations` are the pending 100 ms timeouts of the initial activation, each with the
      id it will set; `releases` counts the pending 1000 ms timeouts that lower the flag. */
  datatype Spy = Spy(
    activeId: Option<string>,
    scrolling: bool,
    initialized: bool,
    observing: bool,
    activations: seq<string>,
    releases: nat)

  const Initial := Spy(None, false, false, false, [], 0)

  datatype Event =
    | SlugChanged                                   // the effect on `[slug]`
    | TocBuilt(ids: seq<string>, anyFound: bool)    // the effects on `[toc]`; `anyFound`: some heading element exists
    | ActivationTimer                               // the 100 ms timeout of the first-entry activation
    | Click(id: string, position: Option<int>)      // `handleTocClick(id)`; `None` when no element has that id
    | ReleaseTimer                                  // the 1000 ms timeout after a click
    | Intersect(entries: seq<Entry>)                // the observer's callback

  function Step(s: Spy, e: Event): Spy {
    match e
    case SlugChanged => s.(initialized := false)
    case TocBuilt(ids, anyFound) =>
      var s1 := if |ids| > 0 && !s.initialized
        then s.(initialized := true, activations := s.activations + [ids[0]])
        else s;
      s1.(observing := |ids| > 0 && anyFound)
    case ActivationTimer =>
      if s.activations == [] then s
      else s.(activeId := Some(s.activations[0]), activations := s.activations[1..])
    case Click(id, position) =>
      if position.None? then s
      else s.(activeId := Some(id), scrolling := true, releases := s.releases + 1)
    case ReleaseTimer =>
      if s.releases == 0 then s else s.(scrolling := false, releases := s.releases - 1)
    case Intersect(es) =>
      if !s.observing || s.scrolling then s
      else
        match FirstVisible(es)
        case None => s
        case Some(k) => s.(activeId := Some(es[k].id))
  }

  function Run(s: Spy, evs: seq<Event>): Spy
    decreases |evs|
  {
    if evs == [] then s else Run(Step(s, evs[0]), evs[1..])
  }

  /** A click on an id with no element changes nothing. */
  lemma {:induction false} ClickWithoutElement(s: Spy, id: string)
    ensures Step(s, Click(id, None)) == s
  {
  }

  /** A click on a heading that exists makes it active at once, raises the flag and
      schedules one release; nothing else changes. */
  lemma {:induction false} ClickWithElement(s: Spy, id: string, p: int)
    ensures var t := Step(s, Click(id, Some(p)));
      t.activeId == Some(id) && t.scrolling && t.releases == s.releases + 1
      && t.initialized == s.initialized && t.observing == s.observing && t.activations == s.activations
  {
  }

  /** While the flag is up, no observer callback changes anything. */
  lemma {:induction false} MutedWhileScrolling(s: Spy, evs: seq<Event>)
    requires s.scrolling
    requires forall i :: 0 <= i < |evs| ==> evs[i].Intersect?
    ensures Run(s, evs) == s
    decreases |evs|
  {
    if evs != [] {
      MutedWhileScrolling(Step(s, evs[0]), evs[1..]);
    }
  }

  /** The flag stays up until a release timeout fires. */
  lemma {:induction false} FlagHeldUntilRelease(s: Spy, evs: seq<Event>)
    requires s.scrolling
    requires forall i :: 0 <= i < |evs| ==> !evs[i].ReleaseTimer?
    ensures Run(s, evs).scrolling
    decreases |evs|
  {
    if evs != [] {
      FlagHeldUntilRelease(Step(s, evs[0]), evs[1..]);
    }
  }

  /** With the flag down and the observer installed, a callback activates the first visible
      heading, and leaves the active id alone when none is visible. */
  lemma {:induction false} ObserverPicksFirstVisible(s: Spy, es: seq<Entry>)
    requires s.observing && !s.scrolling
    ensures FirstVisible(es).None? ==> Step(s, Intersect(es)) == s
    ensures FirstVisible(es).Some? ==>
      Step(s, Intersect(es)) == s.(activeId := Some(es[FirstVisible(es).value].id))
  {
  }

  /** While the flag is up, a release timeout is pending: the flag always comes down. */
  ghost predicate Valid(s: Spy) {
    s.scrolling ==> s.releases > 0
  }

  lemma {:induction false} StepValid(s: Spy, e: Event)
    requires Valid(s)
    ensures Valid(Step(s, e))
  {
  }

  lemma {:induction false} RunValid(s: Spy, evs: seq<Event>)
    requires Valid(s)
    ensures Valid(Run(s, evs))
    decreases |evs|
  {
    if evs != [] {
      StepValid(s, evs[0]);
      RunValid(Step(s, evs[0]), evs[1..]);
    }
  }

  /** The activation timeouts an event schedules, with the ids they carry. */
  function Scheduled(s: Spy, e: Event): seq<string> {
    if e.TocBuilt? && |e.ids| > 0 && !s.initialized then [e.ids[0]] else []
  }

  /** The activation timeouts a sequence of events schedules, in order. */
  function ScheduledAlong(s: Spy, evs: seq<Event>): seq<string>
    decreases |evs|
  {
    if evs == [] then [] else Scheduled(s, evs[0]) + ScheduledAlong(Step(s, evs[0]), evs[1..])
  }

  /** Between two changes of the post, the first TOC entry is scheduled for activation at
      most once, and not at all once a TOC was seen. */
  lemma {:induction false} ActivatedOncePerSlug(s: Spy, evs: seq<Event>)
    requires forall i :: 0 <= i < |evs| ==> !evs[i].SlugChanged?
    ensures |ScheduledAlong(s, evs)| <= if s.initialized then 0 else 1
    ensures s.initialized ==> Run(s, evs).initialized
    decreases |evs|
  {
    if evs != [] {
      var t := Step(s, evs[0]);
      ActivatedOncePerSlug(t, evs[1..]);
      if !s.initialized && t.initialized {
        assert |Scheduled(s, evs[0])| == 1;
      }
    }
  }

  /** The id a new TOC schedules is its first entry's. */
  lemma {:induction false} TocSchedulesFirstEntry(s: Spy, ids: seq<string>, anyFound: bool)
    requires |ids| > 0 && !s.initialized
    ensures var t := Step(s, TocBuilt(ids, anyFound));
      t.initialized && t.activations == s.activations + [ids[0]] && t.observing == anyFound
  {
  }

  /** The page's state as a class: the React state and refs, updated by the handlers. */
  class Tracker {
    var activeId: Option<string>
    var scrolling: bool
    var initialized: bool
    var observing: bool
    var activations: seq<string>
    var releases: nat

    ghost function Snapshot(): Spy
      reads this
    {
      Spy(activeId, scrolling, initialized, observing, activations, releases)
    }

    constructor ()
      ensures Snapshot() == Initial
    {
      activeId, scrolling, initialized, observing := None, false, false, false;
      activations, releases := [], 0;
    }

    /** The effect on `[slug]`: the post changed, so the first entry may be activated again. */
    method OnSlugChange()
      modifies this
      ensures Snapshot() == Step(old(Snapshot()), SlugChanged)
    {
      initialized := false;
    }

    /** The two effects on `[toc]`: schedule the first entry once, and re-install the observer
        when the TOC is non-empty and some heading element was found. */
    method OnTocBuilt(ids: seq<string>, anyFound: bool)
      modifies this
      ensures Snapshot() == Step(old(Snapshot()), TocBuilt(ids, anyFound))
    {
      if |ids| > 0 && !initialized {
        initialized := true;
        activations := activations + [ids[0]];
      }
      observing := |ids| > 0 && anyFound;
    }

    method OnActivationTimer()
      modifies this
      ensures Snapshot() == Step(old(Snapshot()), ActivationTimer)
    {
      if activations != [] {
        activeId := Some(activations[0]);
        activations := activations[1..];
      }
    }

    /** `handleTocClick(id)`, returning where it scrolls the window to. */
    method HandleTocClick(id: string, position: Option<int>) returns (scrollTop: Option<int>)
      modifies this
      ensures Snapshot() == Step(old(Snapshot()), Click(id, position))
      ensures scrollTop == ClickScroll(position)
    {
      if position.None? {
        return None;
      }
      scrolling := true;
      activeId := Some(id);
      var elementPosition := position.value;
      scrollTop := Some(elementPosition - HeaderHeight - ScrollGap);
      releases := releases + 1;
    }

    method OnReleaseTimer()
      modifies this
      ensures Snapshot() == Step(old(Snapshot()), ReleaseTimer)
    {
      if releases > 0 {
        scrolling := false;
        releases := releases - 1;
      }
    }

    /** The intersection observer's callback. */
    method OnIntersect(es: seq<Entry>)
      modifies this
      ensures Snapshot() == Step(old(Snapshot()), Intersect(es))
    {
      if !observing || scrolling {
        return;
      }
      var first := FirstVisible(es);
      if first.Some? {
        activeId := Some(es[first.value].id);
      }
    }
  }
}
