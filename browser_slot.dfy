/** The module-level `currentBrowser` / `currentContext` pair each site's entry point keeps
    (src/disboard/index.ts and src/discordlist/index.ts hold one each). Browsers are numbered in
    launch order; `closed` records the ones whose `close()` has been called. */
module Browser {
  import opened Wrappers

  /** The browser a handle holds, as a set: empty when the handle is unset. */
  function Held(b: Option<nat>): set<nat> {
    if b.Some? then {b.value} else {}
  }

  class BrowserSlot {
    var browser: Option<nat>
    var context: Option<nat>
    var launches: nat
    ghost var closed: set<nat>

    /** The two handles are set and cleared together; the held browser is the latest one
        launched and is still open, and every other browser launched so far has been closed. */
    ghost predicate Valid()
      reads this
    {
      && (browser.None? <==> context.None?)
      && (browser.Some? ==> browser.value == launches - 1 && context == browser && browser.value !in closed)
      && (forall b :: 0 <= b < launches && browser != Some(b) ==> b in closed)
      && (forall b :: b in closed ==> b < launches)
    }

    /** The browsers launched and not yet closed. */
    ghost function OpenBrowsers(): set<nat>
      reads this
    {
      set b | 0 <= b < launches && b !in closed
    }

    /** At most one browser is open at any time, and it is the one the slot holds. This holds
        for runs that each finish before the next starts, as `Dispose` and `Launch` model them:
        two overlapping runs can both find the slot empty, and the browser the first launches
        is then overwritten while still open. */
    lemma AtMostOneOpen()
      requires Valid()
      ensures OpenBrowsers() == Held(browser)
      ensures |OpenBrowsers()| <= 1
    {
    }

    constructor()
      ensures Valid() && browser.None? && launches == 0 && closed == {}
    {
      browser := None;
      context := None;
      launches := 0;
      closed := {};
    }

    /** `dispose…Browser`: closes the held browser, if any, and clears both handles. A second
        call closes nothing. */
    method Dispose()
      requires Valid()
      modifies this
      ensures Valid() && browser.None? && context.None? && launches == old(launches)
      ensures closed == old(closed) + Held(old(browser))
    {
      if browser.Some? {
        closed := closed + {browser.value};
      }
      browser := None;
      context := None;
    }

    /** `firefox.launch` then `newContext` into an empty slot. */
    method Launch()
      requires Valid() && browser.None?
      modifies this
      ensures Valid() && browser == Some(old(launches)) && context == browser
      ensures launches == old(launches) + 1 && closed == old(closed)
    {
      browser := Some(launches);
      context := Some(launches);
      launches := launches + 1;
    }
  }
}
