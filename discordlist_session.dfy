/** The discordlist entry point (src/discordlist/index.ts): find the bump links on the
    dashboard, build the bumpers, and hold the browser. Login and navigation happen between
    these steps and are not part of this model. */
module DiscordListSession {
  import opened Wrappers
  import opened Text
  import opened DiscordList
  import opened Browser

  /** The links are recognised by their text only. */
  const DiscordListServerBumpText := "Bump"

  /** `picked` lists, in increasing order, exactly the candidates whose inner HTML contains
      "Bump" (with a capital B). */
  predicate IsBumpSelection(candidates: seq<string>, picked: seq<nat>) {
    && (forall k :: 0 <= k < |picked| ==>
          picked[k] < |candidates| && Contains(candidates[picked[k]], DiscordListServerBumpText))
    && (forall k, l :: 0 <= k < l < |picked| ==> picked[k] < picked[l])
    && (forall i :: 0 <= i < |candidates| && Contains(candidates[i], DiscordListServerBumpText) ==> i in picked)
  }

  /** `getBumpElements`: the positions of the bump links among the candidate anchors. */
  method GetBumpElements(candidates: seq<string>) returns (picked: seq<nat>)
    ensures IsBumpSelection(candidates, picked)
    ensures |picked| <= |candidates|
  {
    picked := [];
    var i := 0;
    while i < |candidates|
      invariant 0 <= i <= |candidates| && |picked| <= i
      invariant forall k :: 0 <= k < |picked| ==>
        picked[k] < i && Contains(candidates[picked[k]], DiscordListServerBumpText)
      invariant forall k, l :: 0 <= k < l < |picked| ==> picked[k] < picked[l]
      invariant forall j :: 0 <= j < i && Contains(candidates[j], DiscordListServerBumpText) ==> j in picked
    {
      if Contains(candidates[i], DiscordListServerBumpText) {
        picked := picked + [i];
      }
      i := i + 1;
    }
  }

  /** `prepareDiscordListAndBumper`: with no bump link nothing is built (and, the dispose call
      being commented out, the browser is kept, so this takes no slot); otherwise one
      controller over all links, and every link is bumped once. */
  method PrepareDiscordListAndBumper(candidates: seq<string>)
    returns (picked: seq<nat>, controller: DiscordListBumpController?)
    ensures IsBumpSelection(candidates, picked)
    ensures controller == null <==> picked == []
    ensures controller != null ==>
      && fresh(controller)
      && |controller.bumpInstances| == |picked|
      && forall k :: 0 <= k < |picked| ==>
           !controller.bumpInstances[k].bumpAvailable && controller.bumpInstances[k].clicks == 1
  {
    picked := GetBumpElements(candidates);
    if |picked| == 0 {
      controller := null;
    } else {
      var locators := seq(|picked|, k requires 0 <= k < |picked| => candidates[picked[k]]);
      forall k | 0 <= k < |picked| ensures IsBumpHtml(locators[k]) {
        CapitalBumpIsAvailable(locators[k]);
      }
      controller := new DiscordListBumpController(locators);
    }
  }

  /** `disposeDiscordListBrowser` */
  method DisposeDiscordListBrowser(slot: BrowserSlot)
    requires slot.Valid()
    modifies slot
    ensures slot.Valid() && slot.browser.None? && slot.context.None?
    ensures slot.launches == old(slot.launches)
    ensures slot.closed == old(slot.closed) + Held(old(slot.browser))
  {
    slot.Dispose();
  }

  /** `discordlistMain`: disposes a browser left over from an earlier run, launches a new one and
      prepares the bumpers; the new browser is always still held afterwards. */
  method DiscordListMain(slot: BrowserSlot, candidates: seq<string>) returns (browser: Option<nat>)
    requires slot.Valid()
    modifies slot
    ensures slot.Valid() && slot.launches == old(slot.launches) + 1
    ensures old(slot.browser).Some? ==> old(slot.browser).value in slot.closed
    ensures browser == slot.browser == Some(old(slot.launches))
  {
    if slot.browser.Some? {
      DisposeDiscordListBrowser(slot);
    }
    slot.Launch();
    var picked, controller := PrepareDiscordListAndBumper(candidates);
    browser := slot.browser;
  }
}
