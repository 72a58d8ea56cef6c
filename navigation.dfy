/**
 * The navigation rules of `initializeNavigation`, `handleScroll` and
 * `smoothScrollTo` in assets/js/script.js: the debounced scroll handler that
 * toggles the navbar's `scrolled` class, the mobile toggler's
 * `aria-expanded` flip, and the in-page anchor links that scroll to their
 * target below the fixed header.
 *
 * Positions are whole pixels here; the browser reports them as
 * floating-point numbers.
 */
module Navigation {
  import opened Wrappers

  /** `CONFIG.scrollThreshold`: the navbar counts as scrolled past this offset. */
  const ScrollThreshold: int := 50
  /** The debounce delay of the scroll handler, in milliseconds. */
  const ScrollDebounce: nat := 10
  /** Height of the fixed header that an anchor target is kept clear of. */
  const HeaderOffset: int := 80

  /** `classList.toggle(name, force)`: afterwards the class is present exactly
      when `force` holds, and no other class changes. */
  function ToggleClass(classes: set<string>, name: string, force: bool): (r: set<string>)
    ensures name in r <==> force
    ensures forall c | c != name :: c in r <==> c in classes
  {
    if force then classes + {name} else classes - {name}
  }

  /** The toggler's click handler: the attribute reads as expanded only when
      it is exactly `"true"`, and the negation is written back as a string. */
  function FlippedExpanded(attr: Option<string>): (r: string)
    ensures r == "true" || r == "false"
    ensures r == "false" <==> attr == Some("true")
  {
    var expanded := attr == Some("true");
    if !expanded then "true" else "false"
  }

  /** Whether a click on an anchor is intercepted: only anchors whose href
      starts with `#` carry the handler, and the bare `#` is let through. */
  predicate InterceptsAnchor(href: string)
    ensures InterceptsAnchor(href) <==> |href| >= 2 && href[0] == '#'
  {
    && |href| > 0 && href[0] == '#'
    && href != "#"
  }

  /** `smoothScrollTo`: the page offset to scroll to for an element whose
      viewport top is `rectTop` while the page is scrolled by `pageYOffset`.
      Once the page is there, the element's top sits `HeaderOffset` pixels
      below the top of the viewport. */
  function ScrollTarget(rectTop: int, pageYOffset: int): (top: int)
    ensures (rectTop + pageYOffset) - top == HeaderOffset
    ensures top <= rectTop + pageYOffset
  {
    rectTop + pageYOffset - HeaderOffset
  }

  /** The window, the navbar and its toggler as `initializeNavigation` wires
      them, on a virtual clock in milliseconds. */
  class Navigation {
    /** Whether the page has a `.navbar` element. */
    const hasNavbar: bool
    var navbarClasses: set<string>
    /** The toggler's `aria-expanded` attribute, if set. */
    var togglerExpanded: Option<string>
    /** `window.scrollY`, the same value as `window.pageYOffset`. */
    var scrollY: int
    /** Document-top position of the element each in-page selector finds. */
    const targets: map<string, int>
    var now: nat
    /** `scrollTimeout`: the id of the pending debounce timer, 0 when there
        is none. Timer ids are positive, so 0 plays the part of `null`. */
    var scrollTimeout: nat
    var nextTimerId: nat
    /** When the pending debounce timer is due. */
    var scrollDue: nat
    /** Debounce callbacks scheduled and not yet run. */
    ghost var scheduled: nat
    /** When the scroll handler last ran, if it has. */
    ghost var lastRun: Option<nat>

    /** The flag mirrors the schedule: a handler is pending exactly when
        `scrollTimeout` is set, so at most one is ever pending. A pending
        handler is due no earlier than the clock and at least
        `ScrollDebounce` after the previous run. */
    ghost predicate Valid()
      reads this
    {
      && 0 < nextTimerId
      && scrollTimeout < nextTimerId
      && scheduled == (if scrollTimeout == 0 then 0 else 1)
      && (lastRun.Some? ==> lastRun.value <= now)
      && (scrollTimeout != 0 ==> now <= scrollDue)
      && (scrollTimeout != 0 && lastRun.Some? ==> lastRun.value + ScrollDebounce <= scrollDue)
    }

    constructor (hasNavbar: bool, navbarClasses: set<string>, togglerExpanded: Option<string>, scrollY: int, targets: map<string, int>)
      ensures Valid() && scheduled == 0 && scrollTimeout == 0 && now == 0 && lastRun == None
      ensures this.hasNavbar == hasNavbar && this.navbarClasses == navbarClasses
      ensures this.togglerExpanded == togglerExpanded && this.scrollY == scrollY && this.targets == targets
    {
      this.hasNavbar := hasNavbar;
      this.navbarClasses := navbarClasses;
      this.togglerExpanded := togglerExpanded;
      this.scrollY := scrollY;
      this.targets := targets;
      now := 0;
      scrollTimeout := 0;
      nextTimerId := 1;
      scrollDue := 0;
      scheduled := 0;
      lastRun := None;
    }

    /** Time passes up to `t`, no later than a pending handler is due. */
    method Tick(t: nat)
      requires Valid() && now <= t
      requires scrollTimeout != 0 ==> t <= scrollDue
      modifies this`now
      ensures Valid() && now == t
    {
      now := t;
    }

    /** The page scrolls to `y` and the window's scroll listener runs: it
        schedules the handler `ScrollDebounce` ms ahead unless one is already
        pending, in which case the event is dropped. */
    method OnScroll(y: int)
      requires Valid()
      modifies this`scrollY, this`scrollTimeout, this`nextTimerId, this`scrollDue, this`scheduled
      ensures Valid() && scrollY == y
      ensures old(scrollTimeout) == 0 ==> scrollTimeout != 0 && scheduled == 1 && scrollDue == now + ScrollDebounce
      ensures old(scrollTimeout) != 0 ==>
        scrollTimeout == old(scrollTimeout) && scrollDue == old(scrollDue) && scheduled == old(scheduled)
    {
      scrollY := y;
      if scrollTimeout == 0 {
        scrollTimeout := nextTimerId;
        nextTimerId := nextTimerId + 1;
        scrollDue := now + ScrollDebounce;
        scheduled := scheduled + 1;
      }
    }

    /** The debounce timer fires when it is due: `handleScroll` toggles
        `scrolled` from the current scroll position, and the pending flag is
        cleared. Two runs are always at least `ScrollDebounce` ms apart. */
    method RunScrollHandler()
      requires Valid() && scrollTimeout != 0 && now == scrollDue
      modifies this`navbarClasses, this`scrollTimeout, this`scheduled, this`lastRun
      ensures Valid() && scrollTimeout == 0 && scheduled == 0
      ensures lastRun == Some(now)
      ensures old(lastRun).Some? ==> old(lastRun).value + ScrollDebounce <= now
      ensures hasNavbar ==> ("scrolled" in navbarClasses <==> scrollY > ScrollThreshold)
      ensures hasNavbar ==> forall c | c != "scrolled" :: c in navbarClasses <==> c in old(navbarClasses)
      ensures !hasNavbar ==> navbarClasses == old(navbarClasses)
    {
      if hasNavbar {
        var scrolled := scrollY > ScrollThreshold;
        navbarClasses := ToggleClass(navbarClasses, "scrolled", scrolled);
      }
      scheduled := scheduled - 1;
      scrollTimeout := 0;
      lastRun := Some(now);
    }

    /** A click on the mobile menu toggler. */
    method ClickToggler()
      modifies this`togglerExpanded
      ensures togglerExpanded == Some(FlippedExpanded(old(togglerExpanded)))
    {
      var expanded := togglerExpanded == Some("true");
      togglerExpanded := Some(if !expanded then "true" else "false");
    }

    /** A click on an anchor whose href starts with `#`, the only anchors
        that carry the handler. An intercepted click has its default
        prevented and, when the selector finds an element, jumps so that
        the element's top sits `HeaderOffset` below the viewport top. The
        bare `#` is let through, and the browser's default action for the
        empty fragment scrolls to the top of the document. */
    method ClickAnchor(href: string) returns (defaultPrevented: bool)
      requires |href| > 0 && href[0] == '#'
      modifies this`scrollY
      ensures defaultPrevented == InterceptsAnchor(href)
      ensures defaultPrevented && href in targets ==> targets[href] - scrollY == HeaderOffset
      ensures defaultPrevented && href !in targets ==> scrollY == old(scrollY)
      ensures !defaultPrevented ==> scrollY == 0
    {
      defaultPrevented := false;
      if href != "#" {
        defaultPrevented := true;
        if href in targets {
          var rectTop := targets[href] - scrollY;
          scrollY := ScrollTarget(rectTop, scrollY);
        }
      } else {
        scrollY := 0;
      }
    }
  }

  /** Three scroll events within one debounce window schedule a single
      handler; it runs `ScrollDebounce` ms after the first event and judges
      the navbar by the last position, not the first. */
  method ScrollBurst(classes: set<string>, y1: int, y2: int, y3: int)
    returns (pendingAfterBurst: bool, ranAt: nat, scrolled: bool, pendingAfterRun: bool)
    ensures pendingAfterBurst && !pendingAfterRun
    ensures ranAt == ScrollDebounce
    ensures scrolled <==> y3 > ScrollThreshold
  {
    var nav := new Navigation(true, classes, None, 0, map[]);
    nav.OnScroll(y1);
    ghost var firstTimer := nav.scrollTimeout;
    nav.Tick(4);
    nav.OnScroll(y2);
    nav.Tick(8);
    nav.OnScroll(y3);
    assert nav.scrollTimeout == firstTimer && nav.scheduled == 1;
    pendingAfterBurst := nav.scrollTimeout != 0;
    nav.Tick(nav.scrollDue);
    nav.RunScrollHandler();
    ranAt := nav.now;
    scrolled := "scrolled" in nav.navbarClasses;
    pendingAfterRun := nav.scrollTimeout != 0;
  }

  /** A scroll event right after the handler ran schedules the next run a
      full `ScrollDebounce` later. */
  method ScrollAfterRun(y1: int, y2: int) returns (firstRun: nat, secondRun: nat)
    ensures firstRun == ScrollDebounce && secondRun == 2 * ScrollDebounce
  {
    var nav := new Navigation(true, {}, None, 0, map[]);
    nav.OnScroll(y1);
    nav.Tick(nav.scrollDue);
    nav.RunScrollHandler();
    firstRun := nav.now;
    nav.OnScroll(y2);
    nav.Tick(nav.scrollDue);
    nav.RunScrollHandler();
    secondRun := nav.now;
  }

  /** Clicking the toggler twice: the first click normalises the attribute to
      the opposite of "expanded", the second flips it back. */
  method TogglerClickedTwice(initial: Option<string>) returns (first: string, second: string)
    ensures first == (if initial == Some("true") then "false" else "true")
    ensures second == (if initial == Some("true") then "true" else "false")
    ensures first != second
  {
    var nav := new Navigation(false, {}, initial, 0, map[]);
    nav.ClickToggler();
    first := nav.togglerExpanded.value;
    nav.ClickToggler();
    second := nav.togglerExpanded.value;
  }

  /** Following the link `#section2` to an element 1000 px down the document
      from a page scrolled by 300 px lands the page at 920, the element's top
      80 px below the viewport top; a bare `#` is not intercepted and the
      page goes back to the top. */
  method AnchorExamples() returns (prevented: bool, landedAt: int, barePrevented: bool, bareLands: int)
    ensures prevented && landedAt == 920
    ensures !barePrevented && bareLands == 0
  {
    var nav := new Navigation(true, {}, None, 300, map["#section2" := 1000]);
    prevented := nav.ClickAnchor("#section2");
    landedAt := nav.scrollY;
    barePrevented := nav.ClickAnchor("#");
    bareLands := nav.scrollY;
  }
}
