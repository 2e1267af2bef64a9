/** The process entry point (src/index.ts): run both bumpers at start, again on every
    relaunch-interval tick, and again on an uncaught exception while fewer than five errors
    have been seen since the last tick. */
module Supervisor {
  import opened Wrappers
  import opened Text
  import opened Jitter
  import opened Disboard
  import opened Browser
  import DisboardSession
  import DiscordListSession

  const MaximumErrorCount := 5
  /** In minutes, used when `RELAUNCH_TIMEOUT` is missing, zero or not a number. */
  const DefaultRelaunchTimeout := 30

  /** `Number(process.env.RELAUNCH_TIMEOUT) || 30`: NaN (an absent or non-numeric value) and 0
      are falsy and fall back to the default. Only digit strings are read as numbers here, so the
      timeout is always positive; JavaScript reads a signed setting such as "-5" as a negative
      number, which is truthy and kept. */
  function RelaunchTimeout(env: Option<string>): (minutes: nat)
    ensures minutes > 0
  {
    match env
    case None => DefaultRelaunchTimeout
    case Some(s) =>
      match DecimalNumber(s)
      case None => DefaultRelaunchTimeout
      case Some(n) => if n == 0 then DefaultRelaunchTimeout else n
  }

  /** A positive decimal value is taken as it is written. */
  lemma {:induction false} RelaunchTimeoutOfDecimal(n: nat)
    requires n > 0
    ensures RelaunchTimeout(Some(DecimalText(n))) == n
  {
    DecimalRoundTrip(n);
  }

  /** A set value gives the default exactly when it is not a number, or is zero, or is the
      default itself. */
  lemma RelaunchTimeoutFallsBack(s: string)
    ensures RelaunchTimeout(Some(s)) == DefaultRelaunchTimeout <==>
      || (exists i :: 0 <= i < |s| && !IsDigit(s[i]))
      || DecimalNumber(s) == Some(0)
      || DecimalNumber(s) == Some(DefaultRelaunchTimeout)
  {
  }

  /** Missing, empty, zero and non-numeric settings all give the default. */
  lemma RelaunchTimeoutFallback()
    ensures RelaunchTimeout(None) == DefaultRelaunchTimeout
    ensures RelaunchTimeout(Some("")) == DefaultRelaunchTimeout
    ensures RelaunchTimeout(Some("0")) == DefaultRelaunchTimeout
    ensures RelaunchTimeout(Some("00")) == DefaultRelaunchTimeout
    ensures RelaunchTimeout(Some("soon")) == DefaultRelaunchTimeout
  {
  }

  /** `RELAUNCH_INTERVAL` in milliseconds: with the timeout read from digits only, a whole,
      positive number of minutes. */
  function RelaunchInterval(env: Option<string>): (ms: nat)
    ensures ms >= 60000 && ms % 60000 == 0
    ensures ms / 60000 == RelaunchTimeout(env)
  {
    RelaunchTimeout(env) * 1000 * 60
  }

  /** What one run of `main()` reads from the two dashboards: the discordlist candidate links,
      the Disboard anchors, the current instant, and one pair of random values per anchor. */
  datatype Run = Run(discordlistLinks: seq<string>, disboardPage: seq<Anchor>, now: int, draws: seq<Draw>)

  predicate ValidRun(run: Run) {
    |run.draws| == |run.disboardPage| && forall i :: 0 <= i < |run.draws| ==> ValidDraw(run.draws[i])
  }

  /** The process-wide state: the two sites' browser slots, the error counter, and (as ghost
      counters) the runs of `main()` started in all and those started by errors since the last tick. */
  class BumperService {
    const disboard: BrowserSlot
    const discordlist: BrowserSlot
    const relaunchInterval: nat
    var errorCount: int
    ghost var relaunches: nat
    ghost var errorRelaunches: nat

    /** The error counter stays within [0, 5] and counts exactly the error-triggered runs since
        the last tick, so at most five such runs happen between two ticks. */
    ghost predicate Valid()
      reads this, disboard, discordlist
    {
      && disboard != discordlist
      && disboard.Valid() && discordlist.Valid()
      && 0 <= errorCount <= MaximumErrorCount
      && errorRelaunches == errorCount
      && errorRelaunches <= relaunches
    }

    /** One run of `main()` has happened between the two states: each site launched one new
        browser and closed the one it held before; discordlist keeps its new browser, and
        Disboard keeps it exactly when some bump anchor was still cooling down. */
    twostate predicate RanBumpers(run: Run)
      reads disboard, discordlist
    {
      && discordlist.launches == old(discordlist.launches) + 1
      && discordlist.browser == Some(old(discordlist.launches))
      && Held(old(discordlist.browser)) <= discordlist.closed
      && disboard.launches == old(disboard.launches) + 1
      && disboard.browser ==
           (if DisboardSession.SomeBumpCoolingDown(run.disboardPage) then Some(old(disboard.launches)) else None)
      && Held(old(disboard.browser)) <= disboard.closed
    }

    /** Both sites' browsers have been closed between the two states, and none launched. */
    twostate predicate DisposedBoth()
      reads disboard, discordlist
    {
      && discordlist.browser.None? && discordlist.context.None?
      && discordlist.launches == old(discordlist.launches)
      && discordlist.closed == old(discordlist.closed) + Held(old(discordlist.browser))
      && disboard.browser.None? && disboard.context.None?
      && disboard.launches == old(disboard.launches)
      && disboard.closed == old(disboard.closed) + Held(old(disboard.browser))
    }

    /** Reads the relaunch setting and runs `main()` once: each site has launched its first
        browser, discordlist holds it, and Disboard holds it exactly when some bump anchor was
        still cooling down. */
    constructor(env: Option<string>, run: Run)
      requires ValidRun(run)
      ensures Valid() && fresh(disboard) && fresh(discordlist)
      ensures errorCount == 0 && relaunches == 1
      ensures relaunchInterval == RelaunchInterval(env)
      ensures discordlist.launches == 1 && discordlist.browser == Some(0)
      ensures disboard.launches == 1
      ensures disboard.browser == if DisboardSession.SomeBumpCoolingDown(run.disboardPage) then Some(0) else None
    {
      disboard := new BrowserSlot();
      discordlist := new BrowserSlot();
      relaunchInterval := RelaunchInterval(env);
      errorCount := 0;
      relaunches := 0;
      errorRelaunches := 0;
      new;
      RunBumpers(run);
      relaunches := 1;
    }

    /** `main()`: the discordlist bumper, then the Disboard bumper. */
    method RunBumpers(run: Run)
      requires ValidRun(run)
      requires disboard != discordlist && disboard.Valid() && discordlist.Valid()
      modifies disboard, discordlist
      ensures disboard.Valid() && discordlist.Valid()
      ensures RanBumpers(run)
    {
      var listBrowser := DiscordListSession.DiscordListMain(discordlist, run.discordlistLinks);
      var boardBrowser := DisboardSession.DisboardMain(disboard, run.disboardPage, run.now, run.draws);
    }

    /** The `setInterval` callback: run `main()` and reset the error counter. */
    method OnInterval(run: Run)
      requires Valid() && ValidRun(run)
      modifies this, disboard, discordlist
      ensures Valid()
      ensures errorCount == 0 && errorRelaunches == 0
      ensures relaunches == old(relaunches) + 1
      ensures RanBumpers(run)
    {
      RunBumpers(run);
      relaunches := relaunches + 1;
      errorCount := 0;
      errorRelaunches := 0;
    }

    /** The `uncaughtException` handler: below the maximum, run `main()` and count the error;
        at the maximum, close both browsers and leave the counter as it is. */
    method OnUncaughtException(run: Run) returns (relaunched: bool)
      requires Valid() && ValidRun(run)
      modifies this, disboard, discordlist
      ensures Valid()
      ensures relaunched <==> old(errorCount) < MaximumErrorCount
      ensures relaunched ==>
        && errorCount == old(errorCount) + 1 && relaunches == old(relaunches) + 1
        && RanBumpers(run)
      ensures !relaunched ==>
        && errorCount == old(errorCount) && relaunches == old(relaunches)
        && DisposedBoth()
    {
      if errorCount < MaximumErrorCount {
        RunBumpers(run);
        relaunches := relaunches + 1;
        errorRelaunches := errorRelaunches + 1;
        errorCount := errorCount + 1;
        relaunched := true;
      } else {
        DisboardSession.DisposeDisboardBrowser(disboard);
        DiscordListSession.DisposeDiscordListBrowser(discordlist);
        relaunched := false;
      }
    }
  }
}
