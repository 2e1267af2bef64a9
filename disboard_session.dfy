/** The Disboard entry point (src/disboard/index.ts): find the bump anchors on the dashboard,
    build the bumpers, and keep or release the browser. Login, navigation and the storage-file
    check happen between these steps and are not part of this model. */
module DisboardSession {
  import opened Wrappers
  import opened Text
  import opened Jitter
  import opened Disboard
  import opened DiscordList
  import opened Browser

  /** `currentHref?.includes(DISBOARD_SERVER_BUMP_PATTERN)`: an anchor with no `href` never
      qualifies. */
  predicate HasBumpHref(href: Option<string>) {
    href.Some? && Contains(href.value, ServerBumpPattern)
  }

  /** Some bump anchor on the page is still cooling down: its label does not read "bump". */
  predicate SomeBumpCoolingDown(page: seq<Anchor>) {
    exists i :: 0 <= i < |page| && HasBumpHref(page[i].href) && !IsBumpText(page[i].text)
  }

  /** `picked` lists, in increasing page order, exactly the anchors whose `href` holds the pattern. */
  predicate IsBumpSelection(page: seq<Anchor>, picked: seq<nat>) {
    && (forall k :: 0 <= k < |picked| ==> picked[k] < |page| && HasBumpHref(page[picked[k]].href))
    && (forall k, l :: 0 <= k < l < |picked| ==> picked[k] < picked[l])
    && (forall i :: 0 <= i < |page| && HasBumpHref(page[i].href) ==> i in picked)
  }

  /** `getBumpElements`: the positions of the bump anchors, in page order. */
  method GetBumpElements(page: seq<Anchor>) returns (picked: seq<nat>)
    ensures IsBumpSelection(page, picked)
    ensures |picked| <= |page|
    ensures forall k :: 0 <= k < |picked| ==> page[picked[k]].href.Some?
  {
    picked := [];
    var i := 0;
    while i < |page|
      invariant 0 <= i <= |page| && |picked| <= i
      invariant forall k :: 0 <= k < |picked| ==> picked[k] < i && HasBumpHref(page[picked[k]].href)
      invariant forall k, l :: 0 <= k < l < |picked| ==> picked[k] < picked[l]
      invariant forall j :: 0 <= j < i && HasBumpHref(page[j].href) ==> j in picked
    {
      if HasBumpHref(page[i].href) {
        picked := picked + [i];
      }
      i := i + 1;
    }
  }

  /** Right after the bumpers read the dashboard, each next-available time is either unset (the
      server was cooling down) or two hours ahead (it was just bumped). The keep-open rule then
      holds exactly when some server was cooling down: an unset time reads as "now", and two
      hours is far outside the twenty-minute window. */
  lemma {:induction false} KeepOpenAfterScan(times: seq<Option<int>>, now: int)
    requires forall k :: 0 <= k < |times| ==> times[k].None? || times[k] == Some(now + BumpTimeoutSeconds)
    ensures ServersCloseToBump(times, now) <==> exists k :: 0 <= k < |times| && times[k].None?
  {
    ServersCloseToBumpIff(times, now);
    forall k | 0 <= k < |times| && times[k].Some?
      ensures !CloseToBump(now, times[k])
    {
      CloseToBumpWindow(now, now + BumpTimeoutSeconds);
    }
  }

  /** Carries the keep-open verdict over from the bumpers' times to the anchors they were built from. */
  lemma VerdictOfScan(page: seq<Anchor>, picked: seq<nat>, times: seq<Option<int>>, now: int)
    requires IsBumpSelection(page, picked) && |times| == |picked|
    requires forall k :: 0 <= k < |times| ==> (times[k].None? <==> !IsBumpText(page[picked[k]].text))
    requires forall k :: 0 <= k < |times| ==> times[k].None? || times[k] == Some(now + BumpTimeoutSeconds)
    ensures ServersCloseToBump(times, now) <==> SomeBumpCoolingDown(page)
  {
    KeepOpenAfterScan(times, now);
    if ServersCloseToBump(times, now) {
      var k :| 0 <= k < |times| && times[k].None?;
      assert HasBumpHref(page[picked[k]].href) && !IsBumpText(page[picked[k]].text);
    } else {
      forall i | 0 <= i < |page| && HasBumpHref(page[i].href)
        ensures IsBumpText(page[i].text)
      {
        var k :| 0 <= k < |picked| && picked[k] == i;
        assert times[k].Some?;
      }
    }
  }

  /** `disposeDisboardBrowser` */
  method DisposeDisboardBrowser(slot: BrowserSlot)
    requires slot.Valid()
    modifies slot
    ensures slot.Valid() && slot.browser.None? && slot.context.None?
    ensures slot.launches == old(slot.launches)
    ensures slot.closed == old(slot.closed) + Held(old(slot.browser))
  {
    slot.Dispose();
  }

  /** `prepareDisboardAndBumper`: builds one bumper per bump anchor (`draws[i]` is the random
      source of anchor `i`), then disposes the browser exactly when no server is close to its
      bump, by the keep-open rule. */
  method PrepareDisboardAndBumper(slot: BrowserSlot, page: seq<Anchor>, now: int, draws: seq<Draw>)
    returns (picked: seq<nat>, controller: DisboardBumpController, keptOpen: bool)
    requires slot.Valid()
    requires |draws| == |page| && forall i :: 0 <= i < |draws| ==> ValidDraw(draws[i])
    modifies slot
    ensures IsBumpSelection(page, picked) && fresh(controller)
    ensures |controller.bumpInstances| == |picked|
    ensures keptOpen == ServersCloseToBump(controller.NextBumpAvailableTimes(), now)
    ensures keptOpen <==> SomeBumpCoolingDown(page)
    ensures slot.Valid() && slot.launches == old(slot.launches)
    ensures keptOpen ==> slot.browser == old(slot.browser) && slot.closed == old(slot.closed)
    ensures !keptOpen ==> (slot.browser.None? &&
      slot.closed == old(slot.closed) + Held(old(slot.browser)))
  {
    picked := GetBumpElements(page);
    var locators := seq(|picked|, k requires 0 <= k < |picked| => page[picked[k]]);
    var locatorDraws := seq(|picked|, k requires 0 <= k < |picked| => draws[picked[k]]);
    controller := new DisboardBumpController(locators, now, locatorDraws);
    var times := controller.NextBumpAvailableTimes();
    keptOpen := ServersCloseToBump(times, now);
    forall k | 0 <= k < |times|
      ensures times[k].None? <==> !IsBumpText(page[picked[k]].text)
      ensures times[k].None? || times[k] == Some(now + BumpTimeoutSeconds)
    {
      assert controller.bumpInstances[k].Initialised(locators[k], now, locatorDraws[k]);
    }
    VerdictOfScan(page, picked, times, now);
    if !keptOpen {
      DisposeDisboardBrowser(slot);
    }
  }

  /** `disboardMain`: disposes a browser left over from an earlier run, launches a new one and
      prepares the bumpers; the result is the browser still held afterwards. */
  method DisboardMain(slot: BrowserSlot, page: seq<Anchor>, now: int, draws: seq<Draw>)
    returns (browser: Option<nat>)
    requires slot.Valid()
    requires |draws| == |page| && forall i :: 0 <= i < |draws| ==> ValidDraw(draws[i])
    modifies slot
    ensures slot.Valid() && slot.launches == old(slot.launches) + 1
    ensures old(slot.browser).Some? ==> old(slot.browser).value in slot.closed
    ensures browser == slot.browser
    ensures browser == if SomeBumpCoolingDown(page) then Some(old(slot.launches)) else None
  {
    if slot.browser.Some? {
      DisposeDisboardBrowser(slot);
    }
    slot.Launch();
    var picked, controller, keptOpen := PrepareDisboardAndBumper(slot, page, now, draws);
    browser := slot.browser;
  }
}
