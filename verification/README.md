# Family dashboard: lunch-menu normalizer, checklists and weather classifiers

This project is a Dafny model of the logic in the family dashboard's main
component (`src/App.jsx`).

- **Lunch menu** (`menu.dfy`, `lunch.dfy`). `fetchLunch` receives the menu
  provider's feed, an ordered list of sessions. Each session has a
  `ServingDate` and `MenuCategories[{Name, MenuItems[{Name}]}]`. The
  function walks the feed in order and builds a dictionary. Each key is a
  weekday name. Each value is the list of that session's categories,
  reshaped as `{name, items: [string]}`.
  - A later session on the same weekday overwrites the earlier entry.
  - The finished dictionary replaces the `lunchMenu` state wholesale, but
    only when the response was ok and carried `FamilyMenuSessions`.
  - A session without `MenuCategories`, or a category without `MenuItems`,
    makes `.map` throw. The `catch` then leaves `lunchMenu` as it was.
  - `ParseMenu` is the loop, proved against the functional specification
    `Normalize`. `Dashboard.FetchLunch` is the state write.
- **Checklists** (`checklist.dfy`). `addTodo`, `addChore`, `toggleItem` and
  `deleteItem` are modelled as functions on sequences of `{id, text,
  assignedTo, completed}` records. `assignedTo` is `None` for to-dos. The
  blank-input test models JavaScript's `String.prototype.trim` with
  ECMAScript's whitespace and line-terminator code points.
- **Weather classifiers** (`weather.dfy`). `getWeatherIcon` returns an
  icon enumeration. `getClothingRec` returns an advice enumeration, and
  `Message` gives the exact strings.

The weekday of a serving date comes from `new Date(...)` and
`toLocaleDateString('en-US', { weekday: 'long' })`, which depend on the
timezone. Here it is a parameter `dayOf: string -> DayName`. A `DayName` is
one of the seven weekdays, or `InvalidDate`, because that call returns
"Invalid Date" for an unparsable date rather than throwing.

The model keeps these consequences of the code:
- A session with an empty `MenuCategories` still creates its weekday key,
  holding an empty list.
- A malformed session aborts the whole update. It is not skipped.
- No request sequence number guards against stale responses.

## Model

| member | source | states |
|---|---|---|
| `Menu.MapItems` | src/App.jsx:138 | item names keep the length and order of `MenuItems`, element by element |
| `Menu.MapCategories` | src/App.jsx:136-139 | succeeds exactly when every category has `MenuItems`; then `categories[i].name == MenuCategories[i].Name` and `categories[i].items[j] == MenuCategories[i].MenuItems[j].Name`, with equal lengths |
| `Menu.MapSession` | src/App.jsx:136-139 | reshaping a session succeeds exactly when it is parsable (has `MenuCategories`, each with `MenuItems`), and then keeps the category count |
| `Menu.Normalize` | src/App.jsx:129-142 | the loop completes exactly when every session of the feed is parsable |
| `Menu.NormalizeLastWins` | src/App.jsx:129-142 | the keys are exactly the weekdays of the feed's sessions; each key holds the mapped categories of the last session on that weekday |
| `Menu.LastSessionExists` | src/App.jsx:141 | every weekday that occurs in the feed has a last session, so every key's value is determined by one session |
| `Menu.EmptyFeedEmptyMenu` | src/App.jsx:129-131 | an empty feed yields an empty dictionary |
| `Menu.EmptyCategoriesKeepKey` | src/App.jsx:136-141 | a last session with empty `MenuCategories` still creates its weekday key, holding an empty list |
| `Menu.MondayPizza` | src/App.jsx:131-141 | a single Monday session with Entree/Pizza gives exactly `{Monday: [{Entree, [Pizza]}]}` |
| `Menu.SecondMondayWins` | src/App.jsx:141 | of two Monday sessions only the second's Entree/Tacos remains |
| `Menu.ParseMenu` | src/App.jsx:129-142 | the `forEach` loop computes `Normalize`: it fails exactly when some session is unparsable, and otherwise its keys are the feed's weekdays |
| `Lunch.SessionsOf` | src/App.jsx:126-128 | sessions go on to normalization exactly when the fetch resolved, the response is ok, the body decoded and `FamilyMenuSessions` is present, and they are that field's value |
| `Lunch.NextLunchMenu` | src/App.jsx:124-147 | the menu is kept when the fetch fails, the response is not ok, the body does not decode, `FamilyMenuSessions` is absent or a session is unparsable; otherwise its keys are the feed's weekdays |
| `Lunch.ReplaceOrKeep` | src/App.jsx:126-147 | a fetch either keeps the old menu or replaces it with a value independent of the old one (no merge), holding the last session per weekday |
| `Lunch.Dashboard.constructor` | src/App.jsx:84-85 | the menu starts empty and not loading |
| `Lunch.Dashboard.FetchLunch` | src/App.jsx:122-151 | after a fetch the loading flag is down and `lunchMenu` is `NextLunchMenu` of its old value |
| `Checklist.TrimStart` | src/App.jsx:158 | drops exactly the leading whitespace: the result is a suffix, everything dropped is whitespace, the result does not start with whitespace |
| `Checklist.TrimEnd` | src/App.jsx:158 | drops exactly the trailing whitespace, symmetrically |
| `Checklist.Trim` | src/App.jsx:158-159 | `s.trim()` is the part of `s` left after removing its leading and trailing whitespace: a contiguous slice that neither starts nor ends with whitespace, never longer than `s` |
| `Checklist.TrimEmptyIffBlank` | src/App.jsx:158-159 | `!s.trim()` holds exactly when every character of `s` is whitespace |
| `Checklist.AddEntry` | src/App.jsx:158-159 | a blank draft leaves list and draft unchanged; otherwise exactly one new, not completed item is appended after the unchanged old items and the draft is cleared |
| `Checklist.AddTodo` | src/App.jsx:158 | as `AddEntry`, the new to-do being `{id, text: draft, completed: false}` with the untrimmed draft |
| `Checklist.AddChore` | src/App.jsx:159 | as `AddEntry`, the new chore assigned to "Anyone" |
| `Checklist.ToggleItem` | src/App.jsx:160 | keeps length, order, ids, texts and assignees; flips `completed` exactly where the id matches |
| `Checklist.ToggleTwice` | src/App.jsx:160 | toggling the same id twice is the identity |
| `Checklist.DeleteItem` | src/App.jsx:161 | never longer; strictly shorter exactly when the id occurs; keeps exactly the elements whose id differs |
| `Checklist.DeleteConcat` | src/App.jsx:161 | deletion distributes over concatenation, so the kept elements stay in their original relative order |
| `Checklist.DeleteAbsent` | src/App.jsx:161 | deleting an id that does not occur leaves the list unchanged |
| `Checklist.DeleteIdempotent` | src/App.jsx:161 | deleting the same id twice is deleting it once |
| `Checklist.DeleteAfterToggle` | src/App.jsx:160-161 | toggling an id and then deleting it equals deleting it |
| `Checklist.DeleteUndoesAddTodo` | src/App.jsx:158-161 | adding a to-do under a fresh id and deleting that id restores the list |
| `Checklist.DeleteUndoesAddChore` | src/App.jsx:159-161 | adding a chore under a fresh id and deleting that id restores the list |
| `Weather.WeatherIcon` | src/App.jsx:163-168 | rain exactly for codes 51..67, snow exactly for 71..77, sun exactly for codes up to 2, cloud exactly for 3..50, 68..70 and 78 up |
| `Weather.ClothingRec` | src/App.jsx:170-176 | "Loading..." exactly for 0; winter coat for other readings below 40, jacket for 40..59, long sleeves for 60..74, shorts from 75 |
| `Weather.Message` | src/App.jsx:171-175 | the five advice strings are non-empty, and "Loading..." is shown exactly for the `Loading` advice |
| `Weather.MessagesDistinct` | src/App.jsx:171-175 | different advice is shown as different text |
| `Weather.ClothingRecMonotone` | src/App.jsx:170-176 | apart from 0, a colder reading never gets lighter advice |
| `Weather.FreezingReadingShowsLoading` | src/App.jsx:171 | a reading of 0 shows "Loading..." although -1 and 1 both get the winter coat |
| `Weather.ClothingRecFixed` | src/App.jsx:170-176 | "Loading..." exactly when there is no reading; a reading of 0 gets the winter coat; all other readings agree with `ClothingRec` |
| `Weather.ClothingRecFixedMonotone` | src/App.jsx:170-176 | with the correction, advice is monotone over all readings |

## Left out

- The weekday naming (`new Date`, `toLocaleDateString`, src/App.jsx:132-133) is the parameter `dayOf`. Its timezone dependence and date parsing are not modelled.
- The network fetch, `res.json()` and the serverless endpoint in `api/lunch.js` are not modelled. Their outcome is the `FetchResult` value given to `FetchLunch`.
- Some inputs are outside the raw data types: a `FamilyMenuSessions`, `MenuCategories` or `MenuItems` that is present but not an array (`.forEach`/`.map` is not a function, src/App.jsx:131,136,138); a `null` session, category or item (`session.ServingDate`, `cat.Name` or `item.Name` throws, src/App.jsx:132,137,138); and a body that decodes to JSON `null` (`data.FamilyMenuSessions` throws, src/App.jsx:128). In each case the source throws and the `catch` keeps `lunchMenu`, the same outcome the model gives for an absent field. A `Name` field that is missing, which JavaScript carries along as `undefined`, is not represented either.
- The weather fetch and its `Math.round` (src/App.jsx:107-120) are not modelled. Temperatures are integers, so a `NaN` reading, which is also falsy, is not represented.
- `Date.now()` ids are a parameter. Id uniqueness is not assumed except where a lemma requires a fresh id.
- React rendering, the clock interval, effect scheduling and the concurrent weather and lunch fetches are not modelled. Each `FetchLunch` call is one completed fetch applied atomically.
- The PIN check (src/App.jsx:44) is not modelled: it is a string comparison in the login screen.

## Findings

| source | as written | input that shows it | evidently intended | confidence | as-written member | corrected member |
|---|---|---|---|---|---|---|
| src/App.jsx:171 | `if (!temp) return "Loading..."` treats a temperature of 0 as a missing reading | a current temperature of 0°F shows "Loading..." while -1°F and 1°F show the winter coat | "Loading..." only when no reading exists (the caller already checks `weather`), and 0°F gets the winter coat | medium, not executed | `Weather.FreezingReadingShowsLoading` | `Weather.ClothingRecFixedMonotone` |
