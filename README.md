# discord-autobump-headless, modelled in Dafny

The program runs in the background and keeps servers listed on two directories, Disboard and
discordlist, "bumped": after the cooldown has passed, it clicks each server's bump button.
This project models its decision logic and states what that logic guarantees.

**Disboard bumpers** (`Disboard`):
- Each bump anchor on the dashboard gets one `DisboardBump` object.
- The object reads the server id from the anchor's `href`.
- If the label reads "bump" in any case, the object clicks it and schedules the next bump two hours ahead, plus a random 10:00 to 29:58 minutes.
- Otherwise it reads the `HH:MM:SS` countdown on the label as the time since the last bump.

**discordlist bumpers** (`DiscordList`):
- These do the same for links whose inner HTML contains "bump".
- There is no schedule; the shared page is closed after a click.

**Keep-open rule.** `serversCloseToBump` decides whether the browser is kept open: it is, when some bumper's next-available time is within 20 whole minutes of now.

**Entry points and supervisor.** The site entry points are `DisboardSession` and `DiscordListSession`. Each owns one browser slot (`Browser.BrowserSlot`). `Supervisor` models the process:
- It runs both sites at start and on every relaunch-interval tick.
- On an uncaught exception it runs them again while fewer than five errors have been counted since the last tick.
- Once five have been counted, it closes both browsers instead.

Instants are whole seconds, `Math.random()` results are reals in [0, 1), and the current time, page contents and environment are passed in as values.

**Where the code and its description differ, the model follows the code:**
- The random second is `floor(v * 59)`, so it lies in [0, 58], not [0, 59].
- dayjs reads an undefined instant as "now". So a bumper with no `nextBumpAvailable` is zero minutes from its bump and keeps the browser open.
- Disboard bumpers set `nextBumpAvailable` only when they click. Applied to them right after the scan, the rule therefore keeps the Disboard browser open exactly when some bump anchor was still cooling down (`DisboardSession.VerdictOfScan`). Applying it there is a substitution, not what the code does (see the first line under "## Left out").
- Disboard's countdown label is the time left until the next bump becomes possible. `setRemainingTime` (`src/disboard/disboardbump.ts:98-101`) instead subtracts it from now and stores the result as the time of the last bump. It never sets `nextBumpAvailable`, so a cooling-down server has no next-available time at all, and the keep-open rule reads it as due now. The model does the same (`Disboard.PreviousBumpEstimate`).
- The discordlist entry point's dispose call is commented out (`src/discordlist/index.ts:59`). The discordlist browser is therefore always kept after a run.

## Model

| member | source | states |
|---|---|---|
| Text.ToLower | src/disboard/disboardbump.ts:79 | `toLowerCase` on ASCII text: each capital letter becomes its small letter and every other character is kept, position by position |
| Text.Contains | src/disboard/index.ts:91 | `includes`: the pattern occurs at some position of the string; `Text.IndexOf` finds the first such position exactly when it holds |
| Text.IndexOf | src/disboard/disboardbump.ts:42 | the separator search `split` relies on: the result is the first occurrence of the pattern, and it is absent exactly when the pattern does not occur |
| Text.Split | src/disboard/disboardbump.ts:42 | `split` with a non-empty separator yields at least one piece, and no piece contains the separator |
| Text.JoinSplit | src/disboard/disboardbump.ts:92 | `split` loses nothing: joining the pieces with the separator gives back the original string |
| Text.SplitAtFirst | src/disboard/disboardbump.ts:92 | splitting at the first occurrence of the separator takes the piece before it off the front of the result |
| Text.SplitAfterPrefix | src/disboard/disboardbump.ts:42 | when the separator neither occurs in a prefix nor straddles its end, splitting prefix + separator + tail gives the prefix followed by the pieces of the tail |
| Text.DecimalNumber | src/disboard/disboardbump.ts:94-96 | `Number` on a string is a number exactly when every character is a decimal digit; otherwise it is NaN |
| Text.DecimalRoundTrip | src/index.ts:7 | reading back the decimal digits of any natural number gives that number |
| Text.ContainsToLower | src/discordlist/discordlistbump.ts:80 | lower-casing keeps an occurrence of a pattern, as its lower-cased form |
| Jitter.RandomizeMinuteAndSecond | src/disboard/disboardbump.ts:110-117 | the random minute lies in [10, 29] and the random second in [0, 58] for every pair of `Math.random()` results |
| Jitter.OffsetSecondsBounds | src/disboard/disboardbump.ts:73-75 | the random delay added to the cooldown lies between 600 and 1798 seconds |
| Jitter.EveryOffsetIsDrawn | src/disboard/disboardbump.ts:110-117 | every minute in [10, 29] and every second in [0, 58] is produced by some valid draw, so the bounds are tight |
| Jitter.MinimumMinuteAbsorbsLowDraws | src/disboard/disboardbump.ts:111 | minute 10 is drawn exactly when the first random value is below 11/30 |
| Disboard.IsBumpText | src/disboard/disboardbump.ts:77-86 | the Disboard availability test: the label, lower-cased, equals "bump"; `Disboard.IsBumpTextIff` characterises it letter by letter |
| Disboard.BumpTextExamples | src/disboard/disboardbump.ts:79 | "bump", "Bump" and "BUMP" pass the availability test; "Bump!", a countdown and "" fail it |
| Disboard.IsBumpTextIff | src/disboard/disboardbump.ts:79 | a label passes the availability test exactly when it has four characters spelling "bump" in any mix of cases |
| Disboard.SplitTimeText | src/disboard/disboardbump.ts:92 | splitting a countdown label at ":" gives its hour, minute and second fields |
| Disboard.RemainingSeconds | src/disboard/disboardbump.ts:88-97 | a label is read as a countdown exactly when it has the form `0H:MM:SS` with H in 0-1 and M, S in 0-5 then 0-9; its value is H·3600 + MM·60 + SS, below two hours |
| Disboard.RemainingOfFormat | src/disboard/disboardbump.ts:11-12 | every duration under two hours, written as `HH:mm:ss`, matches the countdown pattern and reads back as the same duration |
| Disboard.FormatOfRemaining | src/disboard/disboardbump.ts:11-12 | every countdown label is the `HH:mm:ss` display of the duration it is read as, so reading countdowns is one-to-one |
| Disboard.ContainsTimePattern | src/disboard/disboardbump.ts:11 | `DISBOARD_TIME_LEFT_PATTERN.test`: the unanchored pattern `0[0-1]:[0-5][0-9]:[0-5][0-9]` matches at some position of the label; `Disboard.PreviousBumpEstimateBounds` shows a label reading "bump" never matches and an exact countdown always does |
| Disboard.PreviousBumpEstimate | src/disboard/disboardbump.ts:88-108 | the last-bump instant `setRemainingTime` leaves: the prior value when the label holds no countdown, now minus the countdown when the label is exactly one, and undetermined otherwise |
| Disboard.PreviousBumpEstimateBounds | src/disboard/disboardbump.ts:88-108 | a countdown places the last bump within the two hours before now; a label without the pattern, "bump" included, leaves the previous value unchanged |
| Disboard.ServerIdOf | src/disboard/disboardbump.ts:40-43 | the server id never contains "/server/bump/"; an absent `href` gives "" |
| Disboard.ServerIdWithoutPattern | src/disboard/disboardbump.ts:42 | an `href` without the bump pattern gives the empty id |
| Disboard.ServerIdOfBumpHref | src/disboard/disboardbump.ts:42 | for prefix + "/server/bump/" + id, where the pattern first occurs at the end of the prefix and not in the id, the id is recovered exactly |
| Disboard.ServerIdOfSecondOccurrence | src/disboard/disboardbump.ts:42 | when the pattern occurs a second time, the id is exactly the piece between the first and the second occurrence, and what follows is dropped |
| Disboard.ServerIdOfDashboardLink | src/disboard/disboardbump.ts:42 | a dashboard link "/server/bump/" + id gives back the id |
| Disboard.DisboardBump.constructor | src/disboard/disboardbump.ts:33-38 | a new bumper has read its id, has clicked exactly when the label reads "bump", is left unavailable, and is scheduled if it clicked and otherwise holds the countdown estimate |
| Disboard.DisboardBump.GetServerID | src/disboard/disboardbump.ts:40-43 | stores the id taken from the `href`, changing no other field |
| Disboard.DisboardBump.Bump | src/disboard/disboardbump.ts:45-57 | an unavailable button is left entirely untouched; an available one is clicked once, made unavailable, records now as the last bump, and schedules the next bump two hours plus the random delay ahead |
| Disboard.DisboardBump.InvalidateBump | src/disboard/disboardbump.ts:58-67 | bumps exactly when the label reads "bump", otherwise takes the countdown, and always leaves the button unavailable with a consistent schedule |
| Disboard.DisboardBump.GenerateNewBumpTime | src/disboard/disboardbump.ts:72-76 | the next possible bump is two hours from now and the planned bump follows it by 10:00 to 29:58; only these two fields change |
| Disboard.DisboardBump.SetRemainingTime | src/disboard/disboardbump.ts:88-108 | the last-bump estimate becomes now minus the countdown when the label is exactly one, is kept when the label holds no countdown, and becomes undetermined when the countdown is among other characters; only this field changes |
| Disboard.DisboardBumpController.constructor | src/disboard/disboardbump.ts:17-23 | one fresh, distinct bumper per anchor, in page order, each initialised from its own anchor |
| DiscordList.IsBumpHtml | src/discordlist/discordlistbump.ts:77-83 | the discordlist availability test: the lower-cased inner HTML contains "bump" anywhere |
| DiscordList.BumpHtmlWeakerThanDisboard | src/discordlist/discordlistbump.ts:77-83 | every label Disboard's exact test accepts passes discordlist's substring test, and markup around "Bump" passes only the latter |
| DiscordList.CapitalBumpIsAvailable | src/discordlist/discordlistbump.ts:80 | every link the dashboard scan selects (inner HTML containing "Bump") is available to its bumper |
| DiscordList.CloseToBumpWindow | src/discordlist/discordlistbump.ts:30-31 | a set time is close exactly when it lies less than 21 minutes from now, in the past or the future |
| DiscordList.MinutesApart | src/discordlist/discordlistbump.ts:30 | `Math.abs(now.diff(t, "minute"))`: the whole minutes between now and the time, truncated toward zero and taken absolute; an unset time reads as now and is 0 minutes away |
| DiscordList.CloseToBump | src/discordlist/discordlistbump.ts:30-31 | one bumper is close when it is at most 20 whole minutes from now; `DiscordList.CloseToBumpWindow` gives the window in seconds |
| DiscordList.ServersCloseToBump | src/discordlist/discordlistbump.ts:25-32 | the keep-open rule as `some` over the bumpers' next-available times, each taken as close when at most 20 whole minutes from now |
| DiscordList.ServersCloseToBumpIff | src/discordlist/discordlistbump.ts:25-32 | the rule holds exactly when some bumper is close; it never holds with no bumpers, and it always holds when some bumper has no time set |
| DiscordList.ServersCloseToBumpExamples | src/discordlist/discordlistbump.ts:30-31 | 15 minutes ahead keeps the session; 25 minutes ahead together with two hours overdue does not; 15 minutes overdue does |
| DiscordList.DiscordListBump.constructor | src/discordlist/discordlistbump.ts:43-47 | a new bumper has id "1234", has clicked and closed the page exactly when its HTML contains "bump" in any case, and is left unavailable |
| DiscordList.DiscordListBump.Bump | src/discordlist/discordlistbump.ts:48-63 | an unavailable link is left untouched; an available one is clicked once, closes the page once, and is made unavailable |
| DiscordList.DiscordListBump.InvalidateBump | src/discordlist/discordlistbump.ts:64-71 | clicks and closes the page exactly when the availability test holds, and always leaves the link unavailable |
| DiscordList.DiscordListBumpController.constructor | src/discordlist/discordlistbump.ts:18-23 | one fresh, distinct bumper per link, in order, each clicked exactly when its HTML passes the test and having closed the page once per click |
| Browser.BrowserSlot.AtMostOneOpen | src/disboard/index.ts:21-45 | when runs do not overlap, at most one browser per site is open, and it is the one the slot holds |
| Browser.BrowserSlot.constructor | src/disboard/index.ts:21-22 | the slot starts empty, with nothing launched |
| Browser.BrowserSlot.Dispose | src/disboard/index.ts:40-45 | closes the held browser, if any, and clears both handles; closes nothing when the slot is empty |
| Browser.BrowserSlot.Launch | src/disboard/index.ts:31-35 | into an empty slot, a new browser and its context are opened and held |
| DisboardSession.HasBumpHref | src/disboard/index.ts:90-91 | an anchor is a bump anchor when its `href` is present and contains "/server/bump/"; an anchor without `href` never is |
| DisboardSession.GetBumpElements | src/disboard/index.ts:80-96 | selects exactly the anchors whose `href` contains "/server/bump/", each once, in page order |
| DisboardSession.KeepOpenAfterScan | src/disboard/index.ts:71-77 | right after the scan, the keep-open rule holds exactly when some bumper has no next-available time |
| DisboardSession.VerdictOfScan | src/disboard/index.ts:68-78 | right after the scan, the keep-open rule holds exactly when some bump anchor's label does not read "bump" |
| DisboardSession.DisposeDisboardBrowser | src/disboard/index.ts:40-45 | the Disboard browser is closed if held, and both handles are cleared |
| DisboardSession.PrepareDisboardAndBumper | src/disboard/index.ts:68-78 | builds one bumper per bump anchor; keeps the browser exactly when some server is close to its bump, that is, when some bump anchor was cooling down; otherwise disposes it |
| DisboardSession.DisboardMain | src/disboard/index.ts:24-38 | closes a browser left from an earlier run, launches a new one, and ends holding it exactly when the keep-open rule held |
| DiscordListSession.GetBumpElements | src/discordlist/index.ts:66-83 | selects exactly the links whose inner HTML contains "Bump", each once, in order |
| DiscordListSession.PrepareDiscordListAndBumper | src/discordlist/index.ts:54-64 | with no bump link nothing is built; otherwise one controller is built over all links, and each link is clicked once |
| DiscordListSession.DisposeDiscordListBrowser | src/discordlist/index.ts:37-42 | the discordlist browser is closed if held, and both handles are cleared |
| DiscordListSession.DiscordListMain | src/discordlist/index.ts:22-35 | closes a browser left from an earlier run, launches a new one, and always ends holding it |
| Supervisor.RelaunchTimeout | src/index.ts:7 | with settings read as digit strings, the relaunch timeout is a positive number of minutes (false of the program for signed settings: see "## Left out") |
| Supervisor.RelaunchTimeoutOfDecimal | src/index.ts:7 | a positive decimal setting is taken as written |
| Supervisor.RelaunchTimeoutFallsBack | src/index.ts:7 | a set value gives 30 minutes exactly when it is not a number, is zero, or is 30 itself |
| Supervisor.RelaunchTimeoutFallback | src/index.ts:7 | worked cases: a missing setting, "", "0", "00" and "soon" all fall back to 30 minutes |
| Supervisor.RelaunchInterval | src/index.ts:8 | the interval is the timeout in milliseconds; with settings read as digit strings it is a whole, positive number of minutes (false of the program for signed or fractional settings: see "## Left out") |
| Supervisor.BumperService.constructor | src/index.ts:7-20 | reads the relaunch setting and runs both sites once: each has launched its first browser, discordlist holds it, Disboard holds it exactly when some bump anchor was cooling down; no errors counted |
| Supervisor.BumperService.RunBumpers | src/index.ts:15-18 | runs discordlist, then Disboard: each site closes the browser it held and launches one new one; discordlist keeps its new browser, Disboard keeps it exactly when some bump anchor was cooling down |
| Supervisor.BumperService.OnInterval | src/index.ts:22-26 | runs both sites again, with the browser outcome of `RunBumpers`, and resets the error count to zero |
| Supervisor.BumperService.OnUncaughtException | src/index.ts:28-40 | relaunches exactly when fewer than five errors have been counted, with the browser outcome of `RunBumpers`, and counts one more; otherwise closes the browsers both sites held, launches none, and leaves the count unchanged. The count always stays in [0, 5] |

## Left out

- DisboardSession.PrepareDisboardAndBumper: substitutes the rule kept as commented-out code in `src/discordlist/discordlistbump.ts:25-32`, applied to the Disboard bumpers' `nextBumpAvailable` values, for the code at `src/disboard/index.ts:70-71`. As written, that code does not type-check: the controller's constructor takes one argument, and the controller defines no `serversCloseToBump`. Once compiled to JavaScript, line 70 builds the bumpers, which start reading and clicking their buttons. Line 71 then throws a `TypeError`, so lines 72-77 never run and the browser is never disposed there. The rejection leaves the un-awaited `main()` promise; Node's default unhandled-rejection mode raises it as an uncaught exception, which reaches the handler at `src/index.ts:28-40`. The model captures neither the exception nor this route into the handler.
- Login, one-time passwords, navigation to the dashboards, the anti-bot headers, the storage-state file check and the Playwright API are not modelled: they are I/O. This covers `openDisboardPage`, `openDiscordListPage`, `initStorageSaveLocation`, `src/discordlogin.ts`, `src/otp.ts` and `src/headlessbrowser.ts`. The pages are given as values: anchors with `href` and label text, or discordlist inner HTML.
- `src/disboard/disboardmain.ts` is not part of this model.
- Log messages are left out, including the relative time `dayjs().from` builds for one of them.
- `getBumpElements`' navigation back to the dashboard is not modelled. Neither is Playwright's `hasText` pre-filter on discordlist links: the candidates are taken as already pre-filtered.
- Asynchrony is not modelled. The constructors start `getServerID` and `invalidateBump` without awaiting them, and the supervisor starts `main()` without awaiting it; the model runs each step to completion in program order. In the program, a run started by the interval (`src/index.ts:24`) or by the error handler (`src/index.ts:33`) can overlap one still in progress. Two overlapping `disboardMain` calls can both pass the check at `src/disboard/index.ts:25` while the first still awaits `firefox.launch` (line 31). The second assignment then drops the first browser, which stays open and is never closed. `Browser.BrowserSlot.AtMostOneOpen` does not cover this leak.
- `close()` on a browser is taken as immediate.
- Disboard.DisboardBump.InvalidateBump: reads the label text once. The source reads it twice, once in `isBumpAvailable` and once in `setRemainingTime`; the model assumes the two reads give the same text.
- Disboard.PreviousBumpEstimate: a label that contains the countdown pattern among other characters gives `Indeterminate` instead of the date dayjs would compute from `Number` of the split pieces.
- Text.DecimalNumber: models `Number` only on strings of ASCII digits. Whitespace, signs, decimal points, exponents, hexadecimal and "Infinity" are read as NaN.
- Supervisor.RelaunchTimeout: inherits the limit of Text.DecimalNumber. A setting such as " 15" or "1.5", which JavaScript reads as a number, falls back to 30 minutes in the model. Its positivity is a property of the model only. In the program, `Number("-5") || 30` is -5, because -5 is truthy. `RELAUNCH_INTERVAL` is then -300000 ms, and Node runs a `setInterval` delay below 1 ms as 1 ms.
- Supervisor.RelaunchInterval: "a whole, positive number of minutes" is a property of the model only. In the program, a setting of "0.5" gives 30000 ms, which is not a whole minute; "-5" gives a negative interval, as above.
- Text.ToLower: lower-cases ASCII letters only; other Unicode case mappings are not modelled.
- DiscordList.DiscordListBump.Bump: the click, the 2-second wait and the closing of the page shared by all discordlist bumpers are recorded only as counters. A second bumper working on a closed page is not modelled.
- The re-invalidation loop that opens the commented-out `serversCloseToBump` (`src/discordlist/discordlistbump.ts:27-29`) is left out: the model applies the rule directly after the bumpers are built.
- discordlist's `BUMP_TIMEOUT` (6 hours) is never used by the source and is not modelled.
- discordlist's `randomizeMinuteAndSecond` is never called. It is the same code as Disboard's, which `Jitter.RandomizeMinuteAndSecond` models.
- Disboard.DisboardBump: instants are whole seconds. dayjs's millisecond precision and time zones are not modelled.
- The current time and `Math.random()` are parameters. The uncaught exceptions themselves are not modelled: each is a call of `OnUncaughtException`.
