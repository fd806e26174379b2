# Training tracker and training settings, modelled in Dafny

This project models the two stateful pages of a small React web application:

- the **training tracker** (`src/pages/TrainingsApp.tsx`): a ten-week grid of
  Swedish weekdays, a fixed rule that assigns each weekday its training types
  (`daily`, `mag` for abs, `challenge`, `rest`), an icon per day derived from
  those types and the day's completion flags, the completion buttons a day
  offers, and the session state (which days are done, which weeks are
  expanded);
- the **training settings** editor (`src/pages/TrainingsSettings.tsx`): three
  ordered exercise lists (daily, abs, challenge) and the text of the
  new-exercise input, with adding (trim and reject blank input, icon by list,
  append, clear the input), removing by id and moving one entry to another
  position.

Files:

- `categories.dfy` (module `Categories`): the training types and the glyphs
  both pages use (🙌 daily, 💪 abs, 🔥 challenge, 😴 rest, ○ nothing done).
- `text.dfy` (module `Text`): JavaScript's `join` and `trim` as functions.
- `tracker.dfy` (module `Tracker`): the tracker page; its session state is the
  class `TrackerState`.
- `settings.dfy` (module `Settings`): the settings page; its state is the class
  `SettingsState`.

The pages keep their state in React hooks; here each page is a class whose
fields are that state and whose methods are the event handlers, each proved
against a pure function (`Mark`, `Toggle`, `Without`, `Moved`) about which the
lemmas state what the page promises. The loop that builds the week structure
and the local lists that `getIcon` and the button rendering build up are
methods proved against an explicit schedule table (`WeekPlan`), `IconText` and
`Offered`.

## Model

| member | source | states |
|---|---|---|
| `Categories.GlyphChar` | src/pages/TrainingsApp.tsx:56-58 | each kind's completion glyph is a single character, different from the space separator, the pending mark ○ and the rest mark 😴 |
| `Categories.GlyphInjective` | src/pages/TrainingsSettings.tsx:41 | two kinds have the same glyph only if they are the same kind |
| `Text.Join` | src/pages/TrainingsApp.tsx:60 | joining no parts gives the empty string, one part gives that part, and otherwise the result starts with the first part followed by the separator |
| `Text.JoinSingles` | src/pages/TrainingsApp.tsx:60 | joining n one-character parts with a one-character separator gives 2n-1 characters, part i at position 2i and the separator at every odd position |
| `Text.JoinSinglesMembers` | src/pages/TrainingsApp.tsx:60 | a character occurs in such a join exactly when it is one of the parts, or it is the separator and there are two or more parts |
| `Text.IsWhitespace` | src/pages/TrainingsSettings.tsx:36 | the characters `trim` removes are the ECMAScript WhiteSpace and LineTerminator code points; among printable ASCII only the space is one, and among control characters only tab through carriage return |
| `Text.TrimStart` | src/pages/TrainingsSettings.tsx:36 | the result is a suffix of the input that does not start with whitespace, and only whitespace was cut off |
| `Text.TrimEnd` | src/pages/TrainingsSettings.tsx:36 | the result is a prefix of the input that does not end with whitespace, and only whitespace was cut off |
| `Text.Trim` | src/pages/TrainingsSettings.tsx:36-40 | the trimmed name is the piece of the input that starts right after its leading whitespace, neither starts nor ends with whitespace, and is followed only by whitespace |
| `Text.TrimEmptyIff` | src/pages/TrainingsSettings.tsx:36 | the trimmed input is empty exactly when every character is whitespace, so exactly blank input is rejected |
| `Text.TrimIdempotent` | src/pages/TrainingsSettings.tsx:40 | trimming a trimmed name changes nothing |
| `Tracker.DaysDistinct` | src/pages/TrainingsApp.tsx:23 | there are seven weekday names and no two are equal |
| `Tracker.WeekNumbers` | src/pages/TrainingsApp.tsx:24 | the week list has ten entries and entry i is week i+1 |
| `Tracker.WeekRange` | src/pages/TrainingsApp.tsx:24 | a week number is shown exactly when it lies in 1..10 |
| `Tracker.PlanRow` | src/pages/TrainingsApp.tsx:30-45 | in every row of the schedule a rest day has no other type, every other day starts with `daily`, and only Sunday (index 6) rests |
| `Tracker.WeekStructure` | src/pages/TrainingsApp.tsx:27-50 | the structure maps exactly the seven weekdays; Monday, Wednesday and Friday get `daily, mag`, Tuesday and Thursday `daily, challenge`, Saturday `daily`, Sunday `rest`; rest is exclusive and only on Sunday; the week number does not influence the result |
| `Tracker.WithFlag` | src/pages/TrainingsApp.tsx:68-71 | the chosen flag becomes true and every other flag keeps its value |
| `Tracker.Select` | src/pages/TrainingsApp.tsx:55-58 | a kind is selected exactly when it is assigned and its flag has the wanted value, and the selection is in the order daily, mag, challenge |
| `Tracker.GetIcon` | src/pages/TrainingsApp.tsx:52-61 | the icon built by pushing glyphs is the rest glyph on a rest day, else the space-joined glyphs of the done kinds, else ○ |
| `Tracker.RestDayIcon` | src/pages/TrainingsApp.tsx:53 | on a rest day the icon is 😴 whatever the flags are |
| `Tracker.IconShowsGlyph` | src/pages/TrainingsApp.tsx:55-60 | off a rest day, a kind's glyph appears in the icon exactly when the kind is assigned and its flag is true |
| `Tracker.IconPendingIff` | src/pages/TrainingsApp.tsx:60 | off a rest day, the icon is ○ exactly when no assigned kind is done |
| `Tracker.IconOrdered` | src/pages/TrainingsApp.tsx:55-60 | the icon holds one glyph per done kind, separated by spaces, in the order daily, mag, challenge |
| `Tracker.CompletionButtons` | src/pages/TrainingsApp.tsx:143-176 | the buttons rendered are those of `Offered`: none on a rest day, else one per assigned kind not yet done, in the order daily, mag, challenge |
| `Tracker.OfferedOrEarned` | src/pages/TrainingsApp.tsx:140-176 | off a rest day every assigned kind is either offered as a button or shown as a glyph, never both, and unassigned kinds are neither |
| `Tracker.MarkingOffered` | src/pages/TrainingsApp.tsx:145-174 | pressing an offered button removes that button, makes its glyph show and leaves the other buttons as they were |
| `Tracker.GetDayProgress` | src/pages/TrainingsApp.tsx:76-78 | a (week, day) with no recorded entry reads as all flags false; a recorded entry is returned as it is |
| `Tracker.Mark` | src/pages/TrainingsApp.tsx:63-74 | flag t of (week, day) becomes true with the other flags of that day kept; every other week and every other day of that week keeps its entry |
| `Tracker.MarkOnlyTouches` | src/pages/TrainingsApp.tsx:63-78 | read through `getDayProgress`, a mark changes only the one flag of the one (week, day) |
| `Tracker.MarkIdempotent` | src/pages/TrainingsApp.tsx:63-74 | marking the same flag twice gives the same state as marking it once |
| `Tracker.MarkNeverClears` | src/pages/TrainingsApp.tsx:70 | a flag that is true stays true after any mark: nothing resets completion |
| `Tracker.MarksCommute` | src/pages/TrainingsApp.tsx:63-74 | two marks give the same view of every day whichever is applied first |
| `Tracker.Toggle` | src/pages/TrainingsApp.tsx:80-85 | the week's open flag is flipped (a missing entry counts as closed) and every other week keeps its entry |
| `Tracker.ToggleTwice` | src/pages/TrainingsApp.tsx:80-85 | toggling a week twice restores whether each week is open |
| `Tracker.ToggleTwiceAddsEntry` | src/pages/TrainingsApp.tsx:83 | the restoration holds only up to openness: a week with no entry toggled twice gains an explicit closed entry |
| `Tracker.InitiallyOnlyWeekOne` | src/pages/TrainingsApp.tsx:21 | in the initial state week 1 is the only open week |
| `Tracker.TrackerState.constructor` | src/pages/TrainingsApp.tsx:20-21 | the page starts with no recorded progress and only week 1 open |
| `Tracker.TrackerState.MarkCompleted` | src/pages/TrainingsApp.tsx:63-74 | the progress becomes `Mark` of the old progress; open weeks are unchanged |
| `Tracker.TrackerState.ToggleWeek` | src/pages/TrainingsApp.tsx:80-85 | the open weeks become `Toggle` of the old ones; progress is unchanged |
| `Tracker.TrackerState.DayView` | src/pages/TrainingsApp.tsx:103-176 | the icon and buttons shown for day `index` of a week are those the schedule row and the recorded flags determine; Sunday shows 😴 and no buttons |
| `Settings.InitialDaily` | src/pages/TrainingsSettings.tsx:16-20 | the initial daily list has three entries, all with 🙌, non-empty names and distinct ids |
| `Settings.InitialMag` | src/pages/TrainingsSettings.tsx:22-26 | the initial abs list has three entries, all with 💪, non-empty names and distinct ids |
| `Settings.InitialChallenge` | src/pages/TrainingsSettings.tsx:28-31 | the initial challenge list has two entries, all with 🔥, non-empty names and distinct ids |
| `Settings.Without` | src/pages/TrainingsSettings.tsx:57 | after the filter, no entry has the id, and every other entry occurs exactly as often as before |
| `Settings.WithoutKeepsOrder` | src/pages/TrainingsSettings.tsx:57 | the filtered list is a subsequence of the original: the remaining entries keep their relative order |
| `Settings.WithoutAbsent` | src/pages/TrainingsSettings.tsx:55-63 | removing an id that no entry carries leaves the list unchanged |
| `Settings.WithoutIdempotent` | src/pages/TrainingsSettings.tsx:55-63 | removing the same id twice is the same as removing it once |
| `Settings.WithoutTidy` | src/pages/TrainingsSettings.tsx:55-63 | removal keeps every entry's icon equal to its list's glyph and its name non-empty |
| `Settings.SpliceStart` | src/pages/TrainingsSettings.tsx:74-75 | a `splice` start inside the list is used as is, a negative one counts from the end, one past the end means the end and one before the beginning means the beginning |
| `Settings.RemoveAt` | src/pages/TrainingsSettings.tsx:74 | `splice(i, 1)` leaves one entry fewer: entries before i stay, entries after i move one down |
| `Settings.InsertAt` | src/pages/TrainingsSettings.tsx:75 | `splice(i, 0, x)` puts x at i: entries before i stay, entries from i move one up |
| `Settings.MovedIsPermutation` | src/pages/TrainingsSettings.tsx:73-76 | a move keeps the length and the multiset of entries, puts the moved entry at the target position, and keeps the other entries in their relative order |
| `Settings.MovedInPlace` | src/pages/TrainingsSettings.tsx:65-77 | moving an entry to its own position changes nothing |
| `Settings.MovedBack` | src/pages/TrainingsSettings.tsx:65-77 | moving from `to` back to `from` undoes a move from `from` to `to` |
| `Settings.MovedTidy` | src/pages/TrainingsSettings.tsx:65-77 | a move keeps every entry's icon equal to its list's glyph and its name non-empty |
| `Settings.SettingsState.constructor` | src/pages/TrainingsSettings.tsx:16-33 | the page starts with the three initial lists and an empty input |
| `Settings.SettingsState.SetNewExerciseName` | src/pages/TrainingsSettings.tsx:119 | typing replaces the input text and touches no list |
| `Settings.SettingsState.AddExercise` | src/pages/TrainingsSettings.tsx:35-53 | blank input changes nothing at all; otherwise exactly one entry with the given id, the trimmed name and the kind's glyph is appended to that kind's list, the other lists are unchanged and the input is cleared |
| `Settings.SettingsState.RemoveExercise` | src/pages/TrainingsSettings.tsx:55-63 | that kind's list becomes `Without` of the old one; the other lists and the input are unchanged |
| `Settings.SettingsState.MoveExercise` | src/pages/TrainingsSettings.tsx:65-77 | that kind's list becomes `Moved` of the old one with both indices read by the splice rule; the other lists and the input are unchanged |

## Left out

- Rendering: JSX, styling, the collapsible, card, button and input widgets, the
  lucide icons and the day labels ("Vilodag", "Mage", "Utmaning") are
  presentation only. The buttons a day offers and its icon are modelled.
- Routing and navigation (`src/App.tsx`, `src/components/Navigation.tsx`) and
  the placeholder pages (`Index`, `Vinkallare`, `KnappN`, `Anmalan`) hold no
  logic or state.
- The exercise id comes from a clock reading (`Date.now()`); it is a parameter
  of `AddExercise`. Ids are therefore not claimed unique: two adds in the same
  millisecond, or an add whose id equals one of the initial ids, give equal
  ids. Distinct ids are proved only for the initial lists.
- React's `useState`, updater functions and re-rendering are not modelled:
  each handler is a method applied to the current state, one at a time.
- `markCompleted` on a day with no entry stores an object with only the marked
  field; the missing fields read as `undefined`, which every reader treats as
  false. The model stores them as false.
- `Settings.SettingsState.MoveExercise`: does not model a `fromIndex` that
  names no entry (an empty list, or `fromIndex` at or past the end), because
  the page would then insert `undefined` into the list; the precondition
  excludes it. No control of the page calls `moveExercise`; the drag handle is
  only drawn.
- `icon` is optional in the source's `Exercise` type but always set; the model
  makes it a plain string.
- JavaScript strings are UTF-16; the model's strings are sequences of Unicode
  scalar values, so each emoji glyph is one character. No whitespace that
  `trim` removes lies outside the Basic Multilingual Plane, so trimming is the
  same.
- The pages have no storage or loading, no per-week exercise lists, no
  exercise `content` or `rounds`, no editing of a day's types and no way to
  clear a completion flag, so the model has none of these either. The tracker
  always uses its own fixed schedule, not the settings page's lists.
