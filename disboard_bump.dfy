/** One Disboard server's bump button and the controller that builds one bumper per button
    (src/disboard/disboardbump.ts). Instants are whole seconds; the page is read through the
    button's `href` and the text of its label, both passed in as values. */
module Disboard {
  import opened Wrappers
  import opened Text
  import opened Jitter

  /** Disboard lets a server be bumped again two hours after its last bump. */
  const BumpTimeoutHours := 2
  const BumpTimeoutSeconds := BumpTimeoutHours * 3600
  const ServerBumpPattern := "/server/bump/"

  /** A dayjs instant that may be absent (`undefined`), a definite second, or one the model
      does not determine (the label held the time pattern among other characters). */
  datatype Moment = Unset | At(seconds: int) | Indeterminate

  /** A bump anchor on the dashboard: its `href` attribute (absent is None) and its label text. */
  datatype Anchor = Anchor(href: Option<string>, text: string)

  /** `isBumpAvailable`: the lower-cased label is exactly "bump". */
  predicate IsBumpText(text: string) {
    ToLower(text) == "bump"
  }

  /** The availability test on the labels Disboard shows: any capitalisation of "bump"
      counts, anything longer or a countdown does not. */
  lemma BumpTextExamples()
    ensures IsBumpText("bump") && IsBumpText("Bump") && IsBumpText("BUMP")
    ensures !IsBumpText("Bump!") && !IsBumpText("01:00:00") && !IsBumpText("")
  {
  }

  /** Exactly the labels the availability test accepts: four characters spelling "bump" in any case. */
  lemma IsBumpTextIff(text: string)
    ensures IsBumpText(text) <==>
      |text| == 4 && text[0] in "bB" && text[1] in "uU" && text[2] in "mM" && text[3] in "pP"
  {
    if |text| == 4 && text[0] in "bB" && text[1] in "uU" && text[2] in "mM" && text[3] in "pP" {
      assert ToLower(text) == "bump";
    }
    if IsBumpText(text) {
      assert ToLower(text)[0] == 'b' && ToLower(text)[1] == 'u';
      assert ToLower(text)[2] == 'm' && ToLower(text)[3] == 'p';
    }
  }

  /** The regular expression `[0][0-1]:[0-5][0-9]:[0-5][0-9]` matches at index `i` of `s`. */
  predicate TimeAt(s: string, i: nat) {
    i + 8 <= |s| &&
    s[i] == '0' && '0' <= s[i + 1] <= '1' && s[i + 2] == ':' &&
    '0' <= s[i + 3] <= '5' && IsDigit(s[i + 4]) && s[i + 5] == ':' &&
    '0' <= s[i + 6] <= '5' && IsDigit(s[i + 7])
  }

  /** `DISBOARD_TIME_LEFT_PATTERN.test(s)`: the pattern is not anchored. */
  predicate ContainsTimePattern(s: string) {
    exists i :: 0 <= i <= |s| - 8 && TimeAt(s, i)
  }

  /** A label that is exactly a countdown `HH:MM:SS`, hours 00 or 01. */
  predicate IsTimeText(s: string) {
    |s| == 8 && TimeAt(s, 0)
  }

  lemma TwoDigitNumber(a: char, b: char)
    requires IsDigit(a) && IsDigit(b)
    ensures DecimalNumber([a, b]) == Some(10 * DigitValue(a) + DigitValue(b))
  {
    assert [a][..0] == [];
    assert DecimalNumber([a]) == Some(DigitValue(a));
    assert [a, b][..1] == [a];
  }

  /** `text.split(":")` on a countdown gives its three two-digit fields. */
  lemma SplitTimeText(t: string)
    requires IsTimeText(t)
    ensures Split(t, ":") == [[t[0], t[1]], [t[3], t[4]], [t[6], t[7]]]
  {
    assert OccursAt(t, ":", 2) by { assert t[2..3] == [t[2]]; }
    forall k | 0 <= k < 2 ensures !OccursAt(t, ":", k) {
      assert t[k..k + 1] == [t[k]];
    }
    SplitAtFirst(t, ":", 2);
    var r1 := t[3..];
    assert OccursAt(r1, ":", 2) by { assert r1[2..3] == [r1[2]]; }
    forall k | 0 <= k < 2 ensures !OccursAt(r1, ":", k) {
      assert r1[k..k + 1] == [r1[k]];
    }
    SplitAtFirst(r1, ":", 2);
    var r2 := r1[3..];
    assert !Contains(r2, ":") by {
      forall k | 0 <= k <= 1 ensures !OccursAt(r2, ":", k) {
        assert r2[k..k + 1] == [r2[k]];
      }
    }
    SplitWithoutSeparator(r2, ":");
    assert t[..2] == [t[0], t[1]];
    assert r1[..2] == [t[3], t[4]];
    assert r2 == [t[6], t[7]];
  }

  /** The remaining cooldown a countdown label shows, in seconds, as `setRemainingTime` reads it
      (`split(":")` and `Number` of each field); None when the label is not a countdown. */
  function RemainingSeconds(text: string): (r: Option<nat>)
    ensures r.Some? <==> IsTimeText(text)
    ensures r.Some? ==> (r.value ==
      DigitValue(text[1]) * 3600 +
      (10 * DigitValue(text[3]) + DigitValue(text[4])) * 60 +
      10 * DigitValue(text[6]) + DigitValue(text[7]))
    ensures r.Some? ==> r.value < BumpTimeoutSeconds
  {
    if !IsTimeText(text) then None
    else
      SplitTimeText(text);
      var parts := Split(text, ":");
      TwoDigitNumber(text[0], text[1]);
      TwoDigitNumber(text[3], text[4]);
      TwoDigitNumber(text[6], text[7]);
      var hour := DecimalNumber(parts[0]).value;
      var minute := DecimalNumber(parts[1]).value;
      var second := DecimalNumber(parts[2]).value;
      Some(hour * 3600 + minute * 60 + second)
  }

  /** The countdown label Disboard would show for `d` seconds left. */
  function FormatRemaining(d: nat): string
    requires d < BumpTimeoutSeconds
  {
    var minute := d % 3600 / 60;
    var second := d % 60;
    ['0', DigitChar(d / 3600), ':', DigitChar(minute / 10), DigitChar(minute % 10),
     ':', DigitChar(second / 10), DigitChar(second % 10)]
  }

  /** Every duration under two hours is shown as a countdown and read back unchanged. */
  lemma RemainingOfFormat(d: nat)
    requires d < BumpTimeoutSeconds
    ensures IsTimeText(FormatRemaining(d))
    ensures RemainingSeconds(FormatRemaining(d)) == Some(d)
  {
    var t := FormatRemaining(d);
    var minute := d % 3600 / 60;
    var second := d % 60;
    assert d == d / 3600 * 3600 + minute * 60 + second;
    assert DigitValue(t[1]) == d / 3600;
    assert 10 * DigitValue(t[3]) + DigitValue(t[4]) == minute;
    assert 10 * DigitValue(t[6]) + DigitValue(t[7]) == second;
  }

  /** Every countdown label is the display of the duration it is read as, so reading
      countdowns is one-to-one. */
  lemma FormatOfRemaining(t: string)
    requires IsTimeText(t)
    ensures FormatRemaining(RemainingSeconds(t).value) == t
  {
    var h := DigitValue(t[1]);
    var m := 10 * DigitValue(t[3]) + DigitValue(t[4]);
    var s := 10 * DigitValue(t[6]) + DigitValue(t[7]);
    var d := RemainingSeconds(t).value;
    assert d == h * 3600 + m * 60 + s;
    assert d / 3600 == h && d % 3600 / 60 == m && d % 60 == s;
    assert m / 10 == DigitValue(t[3]) && m % 10 == DigitValue(t[4]);
    assert s / 10 == DigitValue(t[6]) && s % 10 == DigitValue(t[7]);
    var f := FormatRemaining(d);
    assert forall i :: 0 <= i < 8 ==> f[i] == t[i];
  }

  /** What `setRemainingTime` leaves in `previousBumpTime`: a countdown projects the last bump
      back from `now`; a label with no countdown in it leaves the old value. */
  function PreviousBumpEstimate(text: string, now: int, prior: Moment): Moment {
    if !ContainsTimePattern(text) then prior
    else if IsTimeText(text) then At(now - RemainingSeconds(text).value)
    else Indeterminate
  }

  /** A countdown places the last bump within the past two hours; any label without the
      pattern (including "bump") changes nothing. */
  lemma PreviousBumpEstimateBounds(text: string, now: int, prior: Moment)
    ensures IsTimeText(text) ==>
      PreviousBumpEstimate(text, now, prior).At? &&
      now - BumpTimeoutSeconds < PreviousBumpEstimate(text, now, prior).seconds <= now
    ensures !ContainsTimePattern(text) ==> PreviousBumpEstimate(text, now, prior) == prior
    ensures IsBumpText(text) ==> PreviousBumpEstimate(text, now, prior) == prior
  {
  }

  /** `getServerID`: the piece of the `href` after the first "/server/bump/", up to the next one,
      and "" when the attribute is absent or has no such piece. */
  function ServerIdOf(href: Option<string>): (id: string)
    ensures !Contains(id, ServerBumpPattern)
  {
    match href
    case None => ""
    case Some(h) =>
      var parts := Split(h, ServerBumpPattern);
      if |parts| > 1 then parts[1] else ""
  }

  /** An `href` without the bump pattern gives the empty id. */
  lemma ServerIdWithoutPattern(h: string)
    requires !Contains(h, ServerBumpPattern)
    ensures ServerIdOf(Some(h)) == ""
  {
  }

  /** An `href` of the form prefix + "/server/bump/" + id, where the pattern first occurs at the
      end of the prefix and not inside the id, gives exactly the id. */
  lemma {:induction false} ServerIdOfBumpHref(prefix: string, id: string)
    requires !Contains(prefix + ServerBumpPattern[..|ServerBumpPattern| - 1], ServerBumpPattern)
    requires !Contains(id, ServerBumpPattern)
    ensures ServerIdOf(Some(prefix + ServerBumpPattern + id)) == id
  {
    SplitAfterPrefix(prefix, ServerBumpPattern, id);
    SplitWithoutSeparator(id, ServerBumpPattern);
  }

  /** With the pattern occurring again after the id, `split(...)[1]` is the piece between the
      first and the second occurrence: what follows the second is dropped. */
  lemma {:induction false} ServerIdOfSecondOccurrence(prefix: string, id: string, rest: string)
    requires !Contains(prefix + ServerBumpPattern[..|ServerBumpPattern| - 1], ServerBumpPattern)
    requires !Contains(id + ServerBumpPattern[..|ServerBumpPattern| - 1], ServerBumpPattern)
    ensures ServerIdOf(Some(prefix + ServerBumpPattern + id + ServerBumpPattern + rest)) == id
  {
    var P := ServerBumpPattern;
    SplitAfterPrefix(id, P, rest);
    SplitAfterPrefix(prefix, P, id + P + rest);
    assert prefix + P + id + P + rest == prefix + P + (id + P + rest);
  }

  /** The dashboard's own links are "/server/bump/" followed by the numeric id. */
  lemma ServerIdOfDashboardLink(id: string)
    requires !Contains(id, ServerBumpPattern)
    ensures ServerIdOf(Some(ServerBumpPattern + id)) == id
  {
    assert "" + ServerBumpPattern[..|ServerBumpPattern| - 1] == ServerBumpPattern[..12];
    ServerIdOfBumpHref("", id);
    assert "" + ServerBumpPattern + id == ServerBumpPattern + id;
  }

  /** One server's bump button (`DisboardBump`). `clicks` counts the clicks on the button. */
  class DisboardBump {
    var bumpAvailable: bool
    var previousBumpTime: Moment
    var nextBumpAvailable: Option<int>
    var nextBumpTime: Option<int>
    var serverID: string
    ghost var clicks: nat

    /** The two next-bump instants are set together, and the bump time lies 10:00 to 29:58
        after the moment the bump becomes possible. */
    ghost predicate Scheduled()
      reads this
    {
      (nextBumpAvailable.Some? <==> nextBumpTime.Some?) &&
      (nextBumpAvailable.Some? ==> 600 <= nextBumpTime.value - nextBumpAvailable.value <= 1798)
    }

    /** The state a bumper is in once it has read its button at `now`: a label reading "bump"
        has been clicked once and scheduled; any other label only updates the estimate of the
        last bump. Either way the button is marked unavailable. */
    ghost predicate Initialised(locator: Anchor, now: int, draw: Draw)
      reads this
      requires ValidDraw(draw)
    {
      && serverID == ServerIdOf(locator.href)
      && !bumpAvailable
      && Scheduled()
      && clicks == (if IsBumpText(locator.text) then 1 else 0)
      && (IsBumpText(locator.text) ==>
            previousBumpTime == At(now) &&
            nextBumpAvailable == Some(now + BumpTimeoutSeconds) &&
            nextBumpTime == Some(now + BumpTimeoutSeconds + OffsetSeconds(RandomizeMinuteAndSecond(draw))))
      && (!IsBumpText(locator.text) ==>
            previousBumpTime == PreviousBumpEstimate(locator.text, now, Unset) &&
            nextBumpAvailable == None && nextBumpTime == None)
    }

    /** Reads the server id from the `href` and invalidates the bump state against the label. */
    constructor(locator: Anchor, now: int, draw: Draw)
      requires ValidDraw(draw)
      ensures Initialised(locator, now, draw)
    {
      bumpAvailable := false;
      previousBumpTime := Unset;
      nextBumpAvailable := None;
      nextBumpTime := None;
      serverID := "";
      clicks := 0;
      new;
      GetServerID(locator.href);
      InvalidateBump(locator.text, now, draw);
    }

    method GetServerID(href: Option<string>)
      modifies this`serverID
      ensures serverID == ServerIdOf(href)
    {
      serverID := ServerIdOf(href);
    }

    /** Clicks the button if and only if it is marked available; otherwise nothing changes. */
    method Bump(now: int, draw: Draw)
      requires ValidDraw(draw) && Scheduled()
      modifies this
      ensures Scheduled()
      ensures !old(bumpAvailable) ==> unchanged(this)
      ensures old(bumpAvailable) ==>
        && !bumpAvailable
        && previousBumpTime == At(now)
        && nextBumpAvailable == Some(now + BumpTimeoutSeconds)
        && nextBumpTime == Some(now + BumpTimeoutSeconds + OffsetSeconds(RandomizeMinuteAndSecond(draw)))
        && serverID == old(serverID)
        && clicks == old(clicks) + 1
    {
      if !bumpAvailable {
        return;
      }
      clicks := clicks + 1;
      bumpAvailable := false;
      previousBumpTime := At(now);
      GenerateNewBumpTime(now, draw);
    }

    /** Reads the label: bumps at once when it reads "bump", otherwise takes the countdown. */
    method InvalidateBump(text: string, now: int, draw: Draw)
      requires ValidDraw(draw) && Scheduled()
      modifies this
      ensures !bumpAvailable && Scheduled() && serverID == old(serverID)
      ensures clicks == old(clicks) + (if IsBumpText(text) then 1 else 0)
      ensures IsBumpText(text) ==>
        && previousBumpTime == At(now)
        && nextBumpAvailable == Some(now + BumpTimeoutSeconds)
        && nextBumpTime == Some(now + BumpTimeoutSeconds + OffsetSeconds(RandomizeMinuteAndSecond(draw)))
      ensures !IsBumpText(text) ==>
        && previousBumpTime == PreviousBumpEstimate(text, now, old(previousBumpTime))
        && nextBumpAvailable == old(nextBumpAvailable)
        && nextBumpTime == old(nextBumpTime)
    {
      bumpAvailable := IsBumpText(text);
      if bumpAvailable {
        Bump(now, draw);
        bumpAvailable := false;
      } else {
        SetRemainingTime(text, now);
      }
    }

    /** Schedules the next bump two hours from `now`, plus the random offset. */
    method GenerateNewBumpTime(now: int, draw: Draw)
      requires ValidDraw(draw)
      modifies this`nextBumpAvailable, this`nextBumpTime
      ensures nextBumpAvailable == Some(now + BumpTimeoutSeconds)
      ensures nextBumpTime == Some(now + BumpTimeoutSeconds + OffsetSeconds(RandomizeMinuteAndSecond(draw)))
      ensures Scheduled()
    {
      var offset := RandomizeMinuteAndSecond(draw);
      OffsetSecondsBounds(draw);
      nextBumpAvailable := Some(now + BumpTimeoutHours * 3600);
      nextBumpTime := Some(nextBumpAvailable.value + offset.minute * 60 + offset.second);
    }

    /** Takes the countdown shown on the label, if any, as the time since the last bump. */
    method SetRemainingTime(text: string, now: int)
      modifies this`previousBumpTime
      ensures previousBumpTime == PreviousBumpEstimate(text, now, old(previousBumpTime))
    {
      if ContainsTimePattern(text) {
        if IsTimeText(text) {
          var parts := Split(text, ":");
          SplitTimeText(text);
          TwoDigitNumber(text[0], text[1]);
          TwoDigitNumber(text[3], text[4]);
          TwoDigitNumber(text[6], text[7]);
          var hour := DecimalNumber(parts[0]).value;
          var minute := DecimalNumber(parts[1]).value;
          var second := DecimalNumber(parts[2]).value;
          previousBumpTime := At(now - hour * 3600 - minute * 60 - second);
        } else {
          previousBumpTime := Indeterminate;
        }
      }
    }
  }

  /** `DisboardBumpController`: one bumper per bump anchor, in page order. `draws[i]` are the
      random values bumper `i` uses if it bumps. */
  class DisboardBumpController {
    var bumpInstances: seq<DisboardBump>

    constructor(locators: seq<Anchor>, now: int, draws: seq<Draw>)
      requires |draws| == |locators|
      requires forall i :: 0 <= i < |draws| ==> ValidDraw(draws[i])
      ensures |bumpInstances| == |locators|
      ensures forall i :: 0 <= i < |locators| ==> fresh(bumpInstances[i])
      ensures forall i, j :: 0 <= i < j < |bumpInstances| ==> bumpInstances[i] != bumpInstances[j]
      ensures forall i :: 0 <= i < |locators| ==> bumpInstances[i].Initialised(locators[i], now, draws[i])
    {
      var built: seq<DisboardBump> := [];
      var i := 0;
      while i < |locators|
        invariant 0 <= i <= |locators| && |built| == i
        invariant forall k :: 0 <= k < i ==> fresh(built[k])
        invariant forall k, l :: 0 <= k < l < i ==> built[k] != built[l]
        invariant forall k :: 0 <= k < i ==> built[k].Initialised(locators[k], now, draws[k])
      {
        var instance := new DisboardBump(locators[i], now, draws[i]);
        built := built + [instance];
        i := i + 1;
      }
      bumpInstances := built;
    }

    /** The `nextBumpAvailable` of every bumper, in order. */
    function NextBumpAvailableTimes(): (times: seq<Option<int>>)
      reads this, bumpInstances
      ensures |times| == |bumpInstances|
      ensures forall i :: 0 <= i < |times| ==> times[i] == bumpInstances[i].nextBumpAvailable
    {
      seq(|bumpInstances|, i reads this, bumpInstances requires 0 <= i < |bumpInstances| =>
        bumpInstances[i].nextBumpAvailable)
    }
  }
}
