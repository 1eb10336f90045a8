# Crowd Counter Pro: venue calibration store and image hash, in Dafny

This project models two parts of the Crowd Counter Pro mobile app.

The first is the venue calibration store, `CalibrationManager` (`src/utils/CalibrationManager.ts`). It keeps an in-memory calibration profile, which is an ordered list of venues plus an optional `lastSync` stamp. It fills that profile lazily from one storage entry (key `"calibration_profile"`). It offers add, update and delete over the list and writes the whole document back after each change. It scales a raw crowd count by a venue's calibration factor. It exports and imports the profile as JSON, and it suggests a factor from a detected and an actual count.

The second is the deterministic part of the placeholder crowd detector (`src/utils/CrowdDetector.ts`). This is `simpleImageHash`, a 32-bit multiply-by-31 string hash, and the base count `hash % 100 + 10` derived from it. The string hashed is the URI of the resized copy that the image manipulator writes (`src/utils/CrowdDetector.ts:38-50`), not the URI passed to `detectCrowd`.

Files:

- `options.dfy`, module `Options`: `Option`, for `T | undefined` and absent properties.
- `venues.dfy`, module `Venues`: the `Venue`, `VenueFields`, `VenueUpdate` and `Profile` records. It also holds the pure rules the manager applies:
  - `findIndex`/`find` by id (`FindIndex`, `Find`);
  - `filter` by id (`Without`);
  - the spread merge of an update (`Merge`);
  - `Math.round` (`Round`);
  - calibration (`Calibrated`) and `suggestCalibrationFactor`;
  - the calibration screen's form check and `trim()` (`FormAccepts`, `Trim`), used only as caller preconditions.
  
  Lemmas relate these rules to one another.
- `calibration_manager.dfy`, module `Calibration`: the class `CalibrationManager`. Its fields are `profile`, `loaded` and `slot`, the storage entry. There is one method per operation of the source, each stated against the functions of `Venues`. Four client methods check whole scenarios.
- `crowd_detector.dfy`, module `CrowdDetector`: ToInt32, `<<`, the loop of `simpleImageHash` as a method with invariants, and its proof against the unbounded polynomial hash.

How the environment is modelled:

- **Storage** is the field `slot`. It is `Absent` (`getItem` yields null or ""), `Written(doc)` (the text a save wrote for `doc`) or `Unreadable` (the read throws or the text does not parse).
- **Write failures.** Whether `setItem` succeeds is the parameter `writeOk` of each operation that saves. A failed write is swallowed and leaves `slot` as it was.
- **Ids and timestamps.** `Date.now().toString()` and `new Date().toISOString()` are the parameters `id` and `now`.
- **JSON text** is the datatype `Text`. A text is either what `exportProfile` produced, or other text described by what `JSON.parse` makes of it (`Parsed`).
- **Numbers.** Calibration factors are `real` and counts are `int`. Arithmetic is exact, and `Math.round(x)` is `Floor(x + 1/2)`.
- **Order of operations.** Each operation runs to completion before the next starts.

The ghost function `CalibrationManager.Current()` is the profile an operation works on after its `ensureLoaded` step. When `loaded` is true it is the in-memory profile. Otherwise it is what loading would produce from `slot`.

Behaviours of the code worth noting:

- **Loading from an empty entry.** When the entry is null or "", `loadProfile` keeps the profile currently in memory, whatever it is. It does not reset it to `{venues: []}`. The profile differs from the empty default only after an `importProfile` that ran before loading.
- **Operations that skip loading.** `importProfile` neither waits for loading nor sets `loaded`. `applyCalibration` returns before loading when the venue id is absent or empty.
- **Venue ids.** Ids are not unique: two adds in the same millisecond receive the same id. `FindAfterAppendTaken` shows that the second such venue is then unreachable by lookup.
- **Validation.** The manager does not validate factors or names. The calibration screen does (`src/screens/CalibrationScreen.tsx:80-89`). That check, including its trimming of the name, is modelled (`FormAccepts`, `Trim`, `FormFields`, `FormUpdate`) and appears only as a caller-side precondition, in `AddKeepsWellFormed`, `UpdateKeepsWellFormed` and `CalibratedNonNegative`.

## Model

| member | source | states |
|---|---|---|
| `Venues.FindIndex` | src/utils/CalibrationManager.ts:103 | -1 exactly when no venue has the id; otherwise an index whose venue has the id and before which no venue has it (the first match) |
| `Venues.Find` | src/utils/CalibrationManager.ts:74-77 | undefined exactly when no venue has the id; otherwise a member of the list with that id, preceded by no other venue with that id |
| `Venues.Without` | src/utils/CalibrationManager.ts:125 | the filtered list holds exactly the venues of the input whose id differs; it is never longer, and is equally long exactly when no venue had the id |
| `Venues.WithoutAppend` | src/utils/CalibrationManager.ts:125 | filtering distributes over concatenation, so the kept venues stay in their original relative order |
| `Venues.WithoutAbsent` | src/utils/CalibrationManager.ts:124-132 | deleting an id no venue carries leaves the list identical |
| `Venues.FindAfterWithout` | src/utils/CalibrationManager.ts:121-133 | after deletion no venue is found under the deleted id, and lookups of every other id are unchanged |
| `Venues.NewVenue` | src/utils/CalibrationManager.ts:85-89 | the record built by `addVenue` carries exactly the caller's fields once `id` and `lastUpdated` are set aside, plus the given id and timestamp |
| `Venues.FindAfterAppendFresh` | src/utils/CalibrationManager.ts:85-91 | after appending a venue with an unused id, looking that id up yields the new venue |
| `Venues.FindAfterAppendTaken` | src/utils/CalibrationManager.ts:87 | if the new id collides with an existing one, lookup still yields the older venue: the new one is unreachable |
| `Venues.FindAfterAppendOther` | src/utils/CalibrationManager.ts:91 | appending never changes the lookup of any other id |
| `Venues.Merge` | src/utils/CalibrationManager.ts:106-110 | the spread merge keeps the id, stamps the new timestamp, takes each property present in the update and keeps each absent one |
| `Venues.MergeFactorOnly` | src/utils/CalibrationManager.ts:106-110 | an update carrying only a calibration factor changes the factor and `lastUpdated` and nothing else (id, name, type, notes kept) |
| `Venues.MergeTwice` | src/utils/CalibrationManager.ts:106-110 | applying the same update twice equals applying it once at the later timestamp |
| `Venues.FindAfterUpdate` | src/utils/CalibrationManager.ts:103-112 | replacing the first match by its merge leaves it found under the same id as the merged record, and every other id's lookup unchanged |
| `Venues.TrimStart` | src/screens/CalibrationScreen.tsx:86 | a suffix of the input that does not start with white space; everything dropped is white space |
| `Venues.TrimEnd` | src/screens/CalibrationScreen.tsx:86 | a prefix of the input that does not end with white space; everything dropped is white space |
| `Venues.Trim` | src/screens/CalibrationScreen.tsx:86 | `trim()`: a contiguous piece of the input, everything around it white space, neither end white space, empty exactly when the input is all white space |
| `Venues.FormAccepts` | src/screens/CalibrationScreen.tsx:80-89 | the screen accepts exactly a positive factor and a name holding some non-white-space character |
| `Venues.FormFields` | src/screens/CalibrationScreen.tsx:101-106 | the fields passed to `addVenue`: trimmed name, type and notes, and the factor |
| `Venues.FormUpdate` | src/screens/CalibrationScreen.tsx:93-98 | the update passed to `updateVenue` sets every property, so any venue merged with it carries exactly the form's fields |
| `Venues.AddKeepsWellFormed` | src/screens/CalibrationScreen.tsx:80-106 | when the screen's check passed, adding its fields keeps every venue positive-factored and named |
| `Venues.UpdateKeepsWellFormed` | src/screens/CalibrationScreen.tsx:80-98 | when the screen's check passed, the venue it updates becomes positive-factored and named, whatever it was |
| `Venues.Round` | src/utils/CalibrationManager.ts:147 | the result is the integer nearest to x, with halves going to the larger integer (`Math.round`) |
| `Venues.RoundWhole` | src/utils/CalibrationManager.ts:147 | a whole number rounds to itself |
| `Venues.RoundMonotone` | src/utils/CalibrationManager.ts:147 | rounding preserves order |
| `Venues.Calibrated` | src/utils/CalibrationManager.ts:138-148 | the count is returned unchanged for an absent, empty or unknown venue id; otherwise the result is the integer nearest to the count times the first match's factor, halves upward |
| `Venues.CalibratedUnchanged` | src/utils/CalibrationManager.ts:138-148 | the count comes back unchanged when the venue id is absent or empty, when no venue has it, and when the matched factor is 1 |
| `Venues.CalibratedNonNegative` | src/utils/CalibrationManager.ts:147 | with positive factors (the screen's check), a non-negative count stays non-negative after calibration |
| `Venues.SuggestCalibrationFactor` | src/utils/CalibrationManager.ts:182-185 | 1.0 when the detected count is zero; otherwise the factor that multiplied by the detected count gives the actual count |
| `Venues.SuggestedFactorCalibrates` | src/utils/CalibrationManager.ts:182-185 | calibrating the detected count with a venue holding the suggested factor yields exactly the actual count |
| `Calibration.Parse` | src/utils/CalibrationManager.ts:163 | the text of an exported profile parses back to that profile; any other text parses to the shape it describes |
| `Calibration.LoadResult` | src/utils/CalibrationManager.ts:29-41 | the profile after loading: unchanged when nothing is stored, the stored document when there is one, `{venues: []}` when the read or the parse fails |
| `Calibration.CalibrationManager.constructor` | src/utils/CalibrationManager.ts:19-24 | starts with `{venues: []}`, not loaded, over the given storage entry |
| `Calibration.CalibrationManager.LoadProfile` | src/utils/CalibrationManager.ts:29-41 | loaded afterwards on every path; the profile is kept when nothing is stored, replaced by the stored document, or reset to empty when the read or parse fails |
| `Calibration.CalibrationManager.SaveProfile` | src/utils/CalibrationManager.ts:46-52 | a successful write stores the whole current profile; a failed one leaves storage as it was |
| `Calibration.CalibrationManager.EnsureLoaded` | src/utils/CalibrationManager.ts:57-61 | loaded afterwards; the profile is untouched when it was already loaded and otherwise is what loading produces |
| `Calibration.CalibrationManager.GetVenues` | src/utils/CalibrationManager.ts:66-69 | returns the venue list of the loaded profile, same order, profile and storage unchanged |
| `Calibration.CalibrationManager.GetVenue` | src/utils/CalibrationManager.ts:74-77 | returns the first venue with the id, defined exactly when one exists; profile and storage unchanged |
| `Calibration.CalibrationManager.AddVenue` | src/utils/CalibrationManager.ts:82-95 | the list grows by exactly the returned record at the end (caller's fields, given id and timestamp), earlier entries and `lastSync` unchanged; storage then holds the new profile unless the write failed |
| `Calibration.CalibrationManager.UpdateVenue` | src/utils/CalibrationManager.ts:100-116 | undefined exactly when no venue has the id, then nothing changes and nothing is saved; otherwise only the first match is replaced by its merge, the result is returned and saved |
| `Calibration.CalibrationManager.DeleteVenue` | src/utils/CalibrationManager.ts:121-133 | the list becomes the filtered list; returns true exactly when a venue had the id, exactly when the list shrank; saves only then |
| `Calibration.CalibrationManager.ApplyCalibration` | src/utils/CalibrationManager.ts:138-148 | returns the calibrated count of the loaded list; with an absent or empty id it returns the count without loading; never changes the profile beyond loading |
| `Calibration.CalibrationManager.ExportProfile` | src/utils/CalibrationManager.ts:153-156 | returns a text that parses back to exactly the loaded profile |
| `Calibration.CalibrationManager.ImportProfile` | src/utils/CalibrationManager.ts:161-177 | true exactly when the text parses to a document whose `venues` is an array; then the profile is replaced wholesale and saved; otherwise profile and storage are untouched |
| `Calibration.MutationsKeepInSync` | src/utils/CalibrationManager.ts:82-133 | after add, update and delete with successful writes, memory is loaded and storage holds exactly the in-memory profile |
| `Calibration.SaveThenLoad` | src/utils/CalibrationManager.ts:29-52 | a successful save followed by a load leaves the profile as it was, with memory and storage in agreement |
| `Calibration.ExportThenImport` | src/utils/CalibrationManager.ts:153-177 | importing the exported text leaves the profile (and so `getVenues`) as it was |
| `Calibration.StadiumScenario` | src/utils/CalibrationManager.ts:138-148 | a fresh venue with factor 2.0 calibrates 40 to 80; after deleting it, the same id leaves 40 unchanged |
| `CrowdDetector.ToInt32` | src/utils/CrowdDetector.ts:75 | the result is a signed 32-bit integer congruent to the input modulo 2^32 (`hash & hash`) |
| `CrowdDetector.ShiftLeft5` | src/utils/CrowdDetector.ts:74 | `x << 5` is a signed 32-bit integer congruent to 32x modulo 2^32 |
| `CrowdDetector.HashStep` | src/utils/CrowdDetector.ts:74-75 | one iteration as written yields a signed 32-bit integer congruent to 31 * hash + code unit modulo 2^32 |
| `CrowdDetector.HashStepMultipliesBy31` | src/utils/CrowdDetector.ts:74-75 | the as-written step `((h << 5) - h) + c`, then `& itself`, equals ToInt32(31h + c) |
| `CrowdDetector.HashOf` | src/utils/CrowdDetector.ts:72-76 | after every prefix of the string the hash lies in [-2^31, 2^31 - 1] |
| `CrowdDetector.HashOfIsPolynomial` | src/utils/CrowdDetector.ts:70-78 | the wrapped loop equals the unbounded polynomial hash (sum of code unit times 31 to the power of its distance from the end) reduced to signed 32 bits |
| `CrowdDetector.Abs` | src/utils/CrowdDetector.ts:77 | `Math.abs`: a non-negative number equal to x or -x |
| `CrowdDetector.SimpleImageHash` | src/utils/CrowdDetector.ts:70-78 | the result is the absolute value of the 32-bit polynomial hash of the string alone (equal strings, equal hashes), lies in [0, 2^31] (2^31 when the loop ends at -2^31), and is 0 for the empty string |
| `CrowdDetector.BaseCount` | src/utils/CrowdDetector.ts:51 | the base count lies in [10, 109] and is congruent to hash + 10 modulo 100 |

## Left out

- The constructor's un-awaited `loadProfile()` racing with early callers is not modelled. All operations are sequential and atomic. The pending load is the public `LoadProfile`, which may run between any two operations.
- JSON text and the JSON grammar are abstracted as `Text`/`Parsed`. The storage entry is abstracted as `Slot`.
- The source never checks the elements of an imported `venues` array. The model takes them to be venue records.
- A stored document whose `venues` is not an array can only arise if storage is changed outside the app. It is not modelled.
- A transient `getItem` failure is folded into `Unreadable`. It has the same effect on the manager: the profile is reset to empty.
- IEEE-754 rounding of `count * calibrationFactor` and `actualCount / detectedCount` is not modelled. The arithmetic is exact over reals.
- Factors that are `NaN` or infinite, and which JSON would store as `null`, are not modelled.
- An update that sets a property explicitly to `undefined` is not modelled. Each update property is either absent or a value.
- Aliasing is not modelled. `getVenue` returns the stored object itself, so a caller that mutates it mutates the store; here venues are values.
- Logging with `console.error` is left out.
- `detectCrowd` is left out: image resizing, timers, `Math.random` jitter on the count and confidence, and wall-clock processing time. So is the detector constructor's model-loading timer. Only `simpleImageHash` and the base count are modelled.
- The screens, `App.tsx` and the theme are left out, as is `SettingsScreen`'s direct removal of the storage entry. The calibration screen's form check appears only as a caller precondition. Its `parseFloat` is not modelled: the factor arrives as a number, and a `NaN` result is taken as rejected.
