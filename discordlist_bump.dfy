/** One discordlist server's bump link and the controller that builds one bumper per link
    (src/discordlist/discordlistbump.ts), together with the keep-session-open rule that file
    holds only as commented-out code. Instants are whole seconds. */
module DiscordList {
  import opened Wrappers
  import opened Text
  import Disboard

  /** In minutes: a server this close to its bump keeps the browser open. */
  const BumpMaxWaitTime := 20

  /** `isBumpAvailable`: the lower-cased inner HTML of the link contains "bump". */
  predicate IsBumpHtml(html: string) {
    Contains(ToLower(html), "bump")
  }

  /** The substring test accepts every label Disboard's exact test accepts, and more: a link
      whose markup wraps the word is still available here. */
  lemma BumpHtmlWeakerThanDisboard(text: string)
    ensures Disboard.IsBumpText(text) ==> IsBumpHtml(text)
    ensures IsBumpHtml("<span>Bump</span>") && !Disboard.IsBumpText("<span>Bump</span>")
  {
    if Disboard.IsBumpText(text) {
      assert OccursAt(ToLower(text), "bump", 0);
    }
    var h := "<span>Bump</span>";
    assert ToLower(h)[6..10] == "bump";
    assert OccursAt(ToLower(h), "bump", 6);
    assert |ToLower(h)| != 4;
  }

  /** Every link holding "Bump" with a capital B, as the dashboard scan selects them, is
      available to the bumper. */
  lemma CapitalBumpIsAvailable(html: string)
    requires Contains(html, "Bump")
    ensures IsBumpHtml(html)
  {
    ContainsToLower(html, "Bump");
    assert ToLower("Bump") == "bump";
  }

  /** `a / b` rounded toward zero, as dayjs rounds a difference in whole minutes. */
  function TruncDiv(a: int, b: int): int
    requires b > 0
  {
    if a >= 0 then a / b else -((-a) / b)
  }

  function Abs(x: int): nat {
    if x < 0 then -x else x
  }

  /** `Math.abs(now.diff(t, "minute"))`. dayjs reads an undefined instant as the current one, so
      an unset `nextBumpAvailable` is zero minutes away. */
  function MinutesApart(now: int, t: Option<int>): nat {
    match t
    case None => 0
    case Some(v) => Abs(TruncDiv(now - v, 60))
  }

  predicate CloseToBump(now: int, t: Option<int>) {
    MinutesApart(now, t) <= BumpMaxWaitTime
  }

  /** A set time is close exactly when it lies less than 21 whole minutes from `now`, on either
      side: a time already past counts as much as one still to come. */
  lemma CloseToBumpWindow(now: int, v: int)
    ensures CloseToBump(now, Some(v)) <==> -21 * 60 < now - v < 21 * 60
  {
  }

  /** The commented-out `serversCloseToBump`: `some` over the bumpers' next-available times. */
  predicate ServersCloseToBump(times: seq<Option<int>>, now: int)
    decreases |times|
  {
    |times| > 0 && (CloseToBump(now, times[0]) || ServersCloseToBump(times[1..], now))
  }

  /** The rule holds exactly when some bumper is close; so never for no bumpers, and always
      when some bumper has no next-available time at all. */
  lemma {:induction false} ServersCloseToBumpIff(times: seq<Option<int>>, now: int)
    ensures ServersCloseToBump(times, now) <==> exists i :: 0 <= i < |times| && CloseToBump(now, times[i])
    ensures times == [] ==> !ServersCloseToBump(times, now)
    ensures (exists i :: 0 <= i < |times| && times[i].None?) ==> ServersCloseToBump(times, now)
    decreases |times|
  {
    if times != [] {
      ServersCloseToBumpIff(times[1..], now);
      if exists i :: 0 <= i < |times| && CloseToBump(now, times[i]) {
        var i :| 0 <= i < |times| && CloseToBump(now, times[i]);
        if i > 0 {
          assert times[1..][i - 1] == times[i];
        }
      }
      if ServersCloseToBump(times[1..], now) {
        var j :| 0 <= j < |times[1..]| && CloseToBump(now, times[1..][j]);
        assert CloseToBump(now, times[j + 1]);
      }
    }
  }

  /** The worked cases: with a bump 15 minutes ahead a 20-minute wait keeps the session, one
      25 minutes ahead does not, and a bump 15 minutes overdue keeps it too. */
  lemma ServersCloseToBumpExamples(now: int)
    ensures ServersCloseToBump([Some(now + 15 * 60)], now)
    ensures !ServersCloseToBump([Some(now + 25 * 60), Some(now - 2 * 3600)], now)
    ensures ServersCloseToBump([Some(now + 25 * 60), Some(now - 15 * 60)], now)
  {
    assert [Some(now + 25 * 60), Some(now - 2 * 3600)][1..] == [Some(now - 2 * 3600)];
    assert [Some(now - 2 * 3600)][1..] == [];
    assert !ServersCloseToBump([Some(now - 2 * 3600)], now);
    assert [Some(now + 25 * 60), Some(now - 15 * 60)][1..] == [Some(now - 15 * 60)];
  }

  /** One server's bump link (`DiscordListBump`). Every instance shares the dashboard page;
      `clicks` counts clicks on the link and `pageCloses` the times it closed the page. */
  class DiscordListBump {
    var bumpAvailable: bool
    var serverID: string
    ghost var clicks: nat
    ghost var pageCloses: nat

    /** Invalidates the bump state against the link's inner HTML at once. */
    constructor(html: string)
      ensures !bumpAvailable && serverID == "1234"
      ensures clicks == (if IsBumpHtml(html) then 1 else 0)
      ensures pageCloses == clicks
    {
      bumpAvailable := false;
      serverID := "1234";
      clicks := 0;
      pageCloses := 0;
      new;
      InvalidateBump(html);
    }

    /** Clicks, waits and closes the page if and only if the link is marked available;
        otherwise nothing changes. */
    method Bump()
      modifies this
      ensures !old(bumpAvailable) ==> unchanged(this)
      ensures old(bumpAvailable) ==>
        && !bumpAvailable
        && clicks == old(clicks) + 1
        && pageCloses == old(pageCloses) + 1
        && serverID == old(serverID)
    {
      if !bumpAvailable {
        return;
      }
      clicks := clicks + 1;
      pageCloses := pageCloses + 1;
      bumpAvailable := false;
    }

    /** A bump is attempted exactly when the availability test holds, and afterwards the link
        is marked unavailable on every path. */
    method InvalidateBump(html: string)
      modifies this
      ensures !bumpAvailable && serverID == old(serverID)
      ensures clicks == old(clicks) + (if IsBumpHtml(html) then 1 else 0)
      ensures pageCloses == old(pageCloses) + (if IsBumpHtml(html) then 1 else 0)
    {
      bumpAvailable := IsBumpHtml(html);
      if bumpAvailable {
        Bump();
        bumpAvailable := false;
      }
    }
  }

  /** `DiscordListBumpController`: one bumper per link, in page order. */
  class DiscordListBumpController {
    var bumpInstances: seq<DiscordListBump>

    constructor(locators: seq<string>)
      ensures |bumpInstances| == |locators|
      ensures forall i :: 0 <= i < |locators| ==> fresh(bumpInstances[i])
      ensures forall i, j :: 0 <= i < j < |bumpInstances| ==> bumpInstances[i] != bumpInstances[j]
      ensures forall i :: 0 <= i < |locators| ==>
        && !bumpInstances[i].bumpAvailable
        && bumpInstances[i].clicks == (if IsBumpHtml(locators[i]) then 1 else 0)
        && bumpInstances[i].pageCloses == bumpInstances[i].clicks
    {
      var built: seq<DiscordListBump> := [];
      var i := 0;
      while i < |locators|
        invariant 0 <= i <= |locators| && |built| == i
        invariant forall k :: 0 <= k < i ==> fresh(built[k])
        invariant forall k, l :: 0 <= k < l < i ==> built[k] != built[l]
        invariant forall k :: 0 <= k < i ==>
          && !built[k].bumpAvailable
          && built[k].clicks == (if IsBumpHtml(locators[k]) then 1 else 0)
          && built[k].pageCloses == built[k].clicks
      {
        var instance := new DiscordListBump(locators[i]);
        built := built + [instance];
        i := i + 1;
      }
      bumpInstances := built;
    }
  }
}
