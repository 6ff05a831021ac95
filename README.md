# blog-madin browser glue, modelled in Dafny

The blog's `bundles/main.js` does three things with any logic in them, and
this project models all three:

- **Relative dates** (`window.madin.relativeDate`): elapsed seconds become a
  short English phrase ("just now", "5 minutes ago", "yesterday",
  "1 weeks ago", ...) by a first-match-wins chain of thresholds. Module
  `RelativeTime` in `relative_date.dfy`; the decimal rendering of the counts
  is module `Decimal` in `decimal.dfy`.
- **Font-size switcher**: each click moves the root element's font size
  around 16px → 18px → 20px → 16px and stores it under `font-size`. Module
  `FontSize` in `font_size.dfy`: the pure step `NextFontSize` and a class
  `Switcher` whose `Click` updates the size and the stored value together.
- **Theme toggle**: a click flips between dark and light, updating the root
  `dark` class, the two toggle icons' `hidden` classes and the stored
  `color-theme`, and announces the new theme in a `theme-switch` event; at
  page load one of the two icons is revealed. Module `Theme` in `theme.dfy`:
  the pure step `Toggle`, a class `Toggler` with a `Click` method that returns
  the event payload, and the pure icon choice `RevealedIcon`.

`wrappers.dfy` holds the `Option` type used for storage lookups and parsed
numbers.

The browser is reduced to values: the elapsed seconds are a parameter
instead of a clock reading; `localStorage` entries are `Option<string>`
fields (`None` when the key is absent); whether storage can be used at all is
a constant of each class; the system dark-mode preference is a boolean
parameter; the inline font size is the number the handler parses from it;
the dispatched event is the value `Click` returns.

Points where `main.js` behaves differently from what its purpose suggests,
and which the model keeps as the script has them:

- The year is 12 months of 30 days, 31,104,000 seconds, as the code computes
  it, not 31,536,000: one second short of 365 days already reads
  "1 years ago" (`RelativeTime.YearSpans`).
- The font-size handler does not check that storage is available; it writes
  storage before it sets the style, so without storage a click fails and
  changes nothing (`FontSize.Switcher.Click`).
- Toggling twice does not bring back every starting state: the root class
  comes back exactly when the stored value agreed with it
  (`Theme.TwoClicks`, with the counterexample `Theme.TwoClicksFromDisagreement`).
  Any click establishes that agreement, so from the second click on it holds.
- The click handler tests the stored theme for JavaScript truthiness, so an
  empty stored string is handled like a missing one (`Theme.Truthy`), while
  the page-load icon choice treats it as a present, non-"dark" value.
- A stored `color-theme` other than "dark", "light" or "" is read two ways:
  the page-load icon choice takes it as light (only "dark" is dark), while
  the click handler takes it as dark (anything but "light" switches to
  "light"). From a light page with such a value stored, a click announces
  "light", leaves the page light and shows the light icon
  (`Theme.StrayStoredValue`). For the values the script itself stores the
  icon stays in step with the root class (`Theme.LoadStateAgrees`,
  `Theme.IconTracksClass`).

## Model

| member | source | states |
|---|---|---|
| `RelativeTime.UnitsAsDefined` | bundles/main.js:100-105 | the units are 60, 3600, 86400, 604800, 2592000 and 31104000 seconds, the products `main.js` defines (a 360-day year) |
| `RelativeTime.RelativeDate` | bundles/main.js:107-131 | for each range of elapsed seconds, the exact phrase: negative is "coming soon", 0..29 "just now", 30..59 echoes the value as "N seconds ago", 60..119 "a minute ago", then "N minutes ago" with N in 2..59, "1 hour ago" for 3600..7199, "N hours ago" with N in 2..23, "yesterday", "N days ago" with N in 2..6, "N weeks ago" with N in 1..4, "N months ago" with N in 1..11, "N years ago" with N ≥ 1, N always the floor of the elapsed time over the unit |
| `RelativeTime.BucketOf` | bundles/main.js:107-131 | every integer lies in the range of some branch, so the phrase is defined for all elapsed values |
| `RelativeTime.BucketsDisjoint` | bundles/main.js:107-131 | the branch ranges do not overlap |
| `RelativeTime.BucketMonotone` | bundles/main.js:107-131 | a larger elapsed time never falls into an earlier branch |
| `RelativeTime.OneHourTest` | bundles/main.js:115-118 | once `diff < hour` has failed, `floor(diff / hour) == 1` holds exactly when `diff < 2 * hour` |
| `RelativeTime.SecondSpans` | bundles/main.js:107-112 | sample phrases: -5 "coming soon", 0 and 29 "just now", 45 "45 seconds ago" |
| `RelativeTime.MinuteAndHourSpans` | bundles/main.js:113-120 | sample phrases: 90 "a minute ago", 125 "2 minutes ago", 3600 "1 hour ago", 7200 "2 hours ago" |
| `RelativeTime.DayAndWeekSpans` | bundles/main.js:121-126 | sample phrases: 90000 "yesterday", one week "1 weeks ago" |
| `RelativeTime.YearSpans` | bundles/main.js:125-130 | sample phrases: one 360-day year less a second "11 months ago", one year "1 years ago", and 365 days less a second already "1 years ago" |
| `Decimal.NatToString` | bundles/main.js:112-130 | a count is written as its canonical decimal digits: at least one digit, no leading zero |
| `Decimal.DecimalRoundTrip` | bundles/main.js:83 | the decimal text of a number reads back as that number, so the stored `font-size` denotes the size written |
| `Decimal.NatToStringInjective` | bundles/main.js:112-130 | different counts give different text |
| `FontSize.NextFontSize` | bundles/main.js:66-81 | the next size is always 16, 18 or 20; 16, 18 and 20 advance one step round that cycle; any other or unparseable size goes to 16 |
| `FontSize.PeriodThree` | bundles/main.js:68-81 | from a size on the cycle, three clicks come back to it and one or two do not |
| `FontSize.StyleReadsBack` | bundles/main.js:61-85 | the style written, `${size}px`, parses back from its first two characters as the size, for every size the handler writes |
| `FontSize.Switcher.Click` | bundles/main.js:60-86 | with storage, the applied size becomes the next size and the stored `font-size` is its decimal text, reading back as the applied size; without storage the click fails and nothing changes |
| `Theme.ToggledTheme` | bundles/main.js:17-37 | the announced theme is "dark" or "light": a stored "light" becomes "dark", any other non-empty stored value "light", and with nothing (or an empty string) stored the root class is flipped |
| `Theme.Toggle` | bundles/main.js:13-38 | after a click the root class is dark exactly when the payload is "dark", storage (when usable) holds the payload, and both icon `hidden` flags are negated |
| `Theme.ToggleAgrees` | bundles/main.js:17-37 | after any click the stored value and the root class agree |
| `Theme.TwoClicks` | bundles/main.js:13-38 | two clicks restore both icon flags and announce opposite themes, and restore the root class exactly when storage agreed with it beforehand |
| `Theme.TwoClicksFromDisagreement` | bundles/main.js:17-37 | with "light" stored under a dark root class, two clicks leave the root class light |
| `Theme.InitialTheme` | bundles/main.js:41-55 | reference definition of the starting theme as the icon choice reads it: the stored choice when storage is available and holds the key ("dark" is dark, anything else light), else the system preference; always "dark" or "light" |
| `Theme.RevealedIcon` | bundles/main.js:40-56 | the light icon is revealed exactly when storage holds "dark", or storage lacks the key and the system prefers dark, or storage is unavailable and the system prefers dark; equivalently when the starting theme (stored choice, else system preference) is dark |
| `Theme.IconTracksClass` | bundles/main.js:13-38 | while the stored value agrees with the root class, a click keeps the light icon shown exactly when the class is dark |
| `Theme.LoadStateAgrees` | bundles/main.js:40-56 | at page load, with the root class set to the starting theme and nothing, "", "dark" or "light" stored, storage agrees with the class and the light icon is shown exactly when the class is dark |
| `Theme.StrayStoredValue` | bundles/main.js:17-48 | with "foo" stored on a light page showing the dark icon, a click announces "light", keeps the class light and shows the light icon, so icon and class no longer match |
| `Theme.Toggler.constructor` | bundles/main.js:40-56 | at page load exactly one icon is shown, the light one exactly when `RevealedIcon` names it |
| `Theme.Toggler.Click` | bundles/main.js:13-38 | a click performs `Toggle` on the page state and returns its payload; exactly one icon stays shown; without storage the payload is still announced and the failed write is reported |

## Left out

- Reading the clock and converting dates (`new Date()`, the millisecond subtraction and `Math.round(... / 1000)`, bundles/main.js:98): floating point and environment-dependent, so the elapsed whole seconds are the input. Invalid dates, which give "NaN years ago", are not modelled.
- JavaScript numbers are doubles: elapsed values beyond 2^53 lose precision and counts of 10^21 and more print in exponent form; the model uses unbounded integers and plain decimal digits.
- `window.madin.getScrollPercentage` (bundles/main.js:134-140): floating-point division over DOM measurements, with NaN or Infinity when the page cannot scroll.
- The DOM, `localStorage`, `matchMedia`, `CustomEvent` and `dispatchEvent`, and the `DOMContentLoaded` wiring (bundles/main.js:1-11, 58, 89): browser interfaces, reduced to fields, parameters and return values. Missing elements, which make the handlers fail, are not modelled.
- `parseInt(style.fontSize.substring(0, 2), 10)` (bundles/main.js:61-64): general JavaScript number parsing is not modelled; its result is the `Option<int>` field `Switcher.fontSize`. `StyleReadsBack` covers the only styles the handler itself writes.
- `currentFontSize || 16` (bundles/main.js:66): its value is always overwritten by the `switch`, so it has no effect and is not modelled.
- The page template that marks both toggle icons hidden and the script that sets the root `dark` class before this code runs are not part of this model; the `Toggler` constructor takes the root class as given and starts both icons hidden.
- Accessing `localStorage` where the browser forbids it can throw instead of yielding a false value; the model treats unavailable storage as a false `localStorage`.
- tailwind.config.js: declarative build configuration for a CSS generator, with no runtime logic.
