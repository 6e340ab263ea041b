# Obsesso, modelled in Dafny

Obsesso is a small SwiftUI app for compulsive double-checkers. The user records
a short clip as proof of a check ("I locked my car"), gives it a type and a title,
and reviews a history of past checks. The app is almost all layout. This project
models the few rules in it that can be stated, and proves them:

- **`CameraModel`** (`camera_model.dfy`, module `Camera`). The recording
  controller is a class with the source's fields: `isRecording`, `videoURL`,
  `errorMessage`, `captureSession` and `videoOutput`.
  - Permission dispatch and capture-session setup run at construction.
  - `captureVideo` toggles a take.
  - The finish-recording delegate reports the clip or an error.
  - The movie output and the session are values: only the controller holds them.
  - The output records the requests it receives (start to a URL, stop). That
    makes "start was not requested" something a contract can state.
  - The invariant `Valid()` says requests alternate start/stop, starting with a
    start. It also says `isRecording` is on exactly when an odd number of
    requests were sent, and that the flag is never on without an output.
  - AVFoundation, FileManager and the clock are inputs:
    - the authorization status and the access answer;
    - what setup finds (`DeviceEnvironment`);
    - the documents directory and the formatted `yyyyMMdd_HHmmss` date string;
    - the set of existing files;
    - the error `removeItem` throws, if any;
    - the error the recording finishes with, if any.
- **Check records** (`records.dfy`, module `Records`).
  - `Item` carries the fields of the `Item` model class. `type` is a reserved
    word in Dafny, so that field is called `kind`.
  - The SwiftData context is a class holding the query's list, oldest first.
  - `Without(s, doomed)` specifies deleting a set of positions. Lemmas prove
    what it keeps and how many elements it drops.
  - They also prove how deleting in increasing or decreasing position order
    from the live list reaches it, and how it commutes with reversal (the rows
    show the list reversed).
- **`ContentView`** (`content_view.dfy`, module `Content`).
  - Committing a record: the gate on type, title and clip, one insert, and the
    inputs cleared.
  - The Confirm button's gate.
  - Deleting history rows, both as written and as evidently intended.
  - The header's guard on `items.last`, with the elapsed-time phrase as written.
  - The elapsed-time phrase. `Date()` becomes a `now` parameter; dates are
    seconds, as `real`.
- **`OnboardingView`** (`onboarding_view.dfy`, module `Onboarding`).
  - The five pages, and the `image` default of `OnboardingPage`.
  - The page counter, as a class whose invariant keeps it on an existing page.
  - The Next / Get Started button, as a pure step `Press` that the class method
    follows, and its label.
  - Calls of `onComplete` are counted.
- `foundation.dfy` (module `Foundation`) holds `Option` and file URLs as
  absolute strings. It also has the two URL operations the camera uses:
  `appendingPathComponent` and `lastPathComponent`.

The model follows the code in these points:
- A successful finish does not clear an earlier `errorMessage`.
- There is no explicit `Failed` or `Running` state: only the three published
  fields, the session and the output.
- The history is not sorted by date. `@Query` has no sort descriptor; the
  header takes `items.last` as the latest and the rows show `items.reversed()`.
- Deleting an offset outside the list traps (a Swift array index out of range),
  so the model requires valid offsets rather than returning an error.

## Model

| member | source | states |
|---|---|---|
| Camera.CameraModel.constructor | Obsesso/CameraModel.swift:12-23 | The fields start off (`isRecording` false, no clip, no error). Permissions are then checked: setup's outcome when they allow it; the denied message and no session when denied or restricted; nothing otherwise. `Valid()` holds. |
| Camera.CameraModel.CheckPermissions | Obsesso/CameraModel.swift:25-42 | Setup runs exactly when authorized, or when not determined and access is granted. Denied and restricted set "Camera access is denied. Please enable it in Settings." and never run setup. Any other status changes nothing. The flag and the clip are never touched. |
| Camera.CameraModel.SetupCaptureSession | Obsesso/CameraModel.swift:44-67 | A new session always. With no device, a failing input or a rejected input: "Failed to set up video capture device." and no output. With a rejected output: "Failed to add video output." while the output stays assigned. The session is started exactly when neither failure occurs, and only then is the error left as it was. |
| Camera.SetupError | Obsesso/CameraModel.swift:47-62 | Setup leaves no error exactly when the device is ready and the output is accepted. It leaves the device message exactly when the device guard fails, and the output message when only the output is rejected. |
| Camera.CameraModel.CaptureVideo | Obsesso/CameraModel.swift:69-97 | No output: "Video output is not set up." and nothing else changes. Recording: a stop request, the flag goes off, the files are untouched. Not recording, with an existing destination file that cannot be removed: "Failed to remove existing file: …", no start request, and the flag stays off. Otherwise any old file at the destination is removed, a start to that destination is requested and the flag goes on. The flag flips exactly when the output got a request. `Valid()` (alternating requests) is preserved. |
| Camera.VideoFileName | Obsesso/CameraModel.swift:79-82 | The file name is `video_`, then the date string, then `.mov`. It is ten characters longer than the date string. |
| Camera.StampOf | Obsesso/CameraModel.swift:82 | Any date string it recovers from a name rebuilds that same name. |
| Camera.StampRoundTrip | Obsesso/CameraModel.swift:82 | Recovering the date string from a take's file name gives the date string back. |
| Camera.Destination | Obsesso/CameraModel.swift:78-82 | The take is written inside the documents directory: the path starts with the directory's and ends with a separator and the take's file name. |
| Camera.DestinationNamesTake | Obsesso/CameraModel.swift:78-82 | The destination's last path component is the take's file name, and the date string can be read back from it. |
| Camera.DestinationInjective | Obsesso/CameraModel.swift:78-91 | Two takes share a destination only when started with the same date string. |
| Camera.CameraModel.FileOutputDidFinishRecording | Obsesso/CameraModel.swift:105-115 | On error it sets "Error recording video: …" and keeps the previous clip. On success the finished file becomes the clip and the error is left as it was. The flag never changes and `Valid()` is kept. |
| Records.ModelContext.Insert | Obsesso/ContentView.swift:237 | The inserted record is appended: the list read back is the old list plus it. |
| Records.ModelContext.Delete | Obsesso/ContentView.swift:245 | Deleting the record at a position removes exactly that element. |
| Records.KeptMembers | Obsesso/ContentView.swift:242-247 | After deleting a set of positions, an element is still present exactly when it sat at a position that was not deleted (both directions). |
| Records.KeptLength | Obsesso/ContentView.swift:242-247 | Deleting a set of positions inside the list removes exactly as many elements as the set holds. |
| Records.KeptNone | Obsesso/ContentView.swift:242-247 | With no deleted position inside the list, the list is unchanged. |
| Records.KeptConcat | Obsesso/ContentView.swift:242-247 | Deleting positions from a concatenation deletes the matching positions from each part. |
| Records.AscendingDeleteStep | Obsesso/ContentView.swift:244-245 | Offsets are deleted in increasing order. Once the deleted offsets below `p` are gone, the record first at `p` has moved back by the number of offsets already deleted, and removing it there deletes position `p`. |
| Records.DescendingDeleteStep | Obsesso/ContentView.swift:244-245 | With only positions above `p` deleted, the record at `p` is still at `p`. |
| Records.WithoutMirror | Obsesso/ContentView.swift:75-83 | Deleting rows of the reversed list is the same as deleting the facing positions of the list itself, then reversing. |
| Content.TimePhrase | Obsesso/ContentView.swift:33-50 | The phrase is total: every interval gets one of "a few seconds", "a minute", "hour", "hours". |
| Content.CalculateTimePhrase | Obsesso/ContentView.swift:33-34 | The phrase for the time elapsed since `lastTime` is one of the four phrases. |
| Content.TimePhraseCases | Obsesso/ContentView.swift:37-47 | "a few seconds" iff under 1 s. "a minute" iff strictly between 1 s and 60 s. "hour" iff exactly 1 s or in [60 s, 3600 s). "hours" iff 3600 s or more. |
| Content.TimePhraseNotMonotone | Obsesso/ContentView.swift:37-43 | As written, exactly 1 s reads "hour" while 1.5 s reads "a minute": a longer time reads more recent. |
| Content.TimePhraseIntended | Obsesso/ContentView.swift:37-47 | The corrected phrase is one of the four, and equals the written one at every interval except exactly 1 s. |
| Content.TimePhraseIntendedMonotone | Obsesso/ContentView.swift:37-47 | The corrected phrase never reads more recent for a longer elapsed time. |
| Content.Header | Obsesso/ContentView.swift:66-70 | The header is shown exactly when there are records. It names the type of `items.last`, and its phrase is `calculateTimePhrase` of that record's timestamp, so one of the four phrases. |
| Content.HeaderAfterCommit | Obsesso/ContentView.swift:66-83 | Right after a commit, the header names the new record's type "a few seconds" ago, and the new record is the top row. |
| Content.ContentView.constructor | Obsesso/ContentView.swift:15-19 | The view starts with empty type and title and the sheet closed. |
| Content.ContentView.DoubleCheck | Obsesso/ContentView.swift:88-90 | The DOUBLE CHECK button opens the sheet. |
| Content.ContentView.Confirm | Obsesso/ContentView.swift:201-206 | Confirm closes the sheet when both title and type are non-empty. Otherwise it leaves it as it was. The clip is not consulted. |
| Content.ContentView.ConfirmOnSheet | Obsesso/ContentView.swift:111 | Confirm on the open sheet, followed by the dismissal's `addItemAction`. The sheet closes exactly when title and type are filled. A confirm without a clip closes the sheet but inserts nothing and keeps the inputs. With a clip, exactly one record is appended and the inputs are cleared. With a missing title or type, nothing changes. |
| Content.ContentView.AddItemAction | Obsesso/ContentView.swift:22-31 | Without a type, a title or a clip, nothing changes: no insert, no field cleared. Otherwise exactly one `Item` is appended, carrying that type, title, the clip's absolute string and `now`; then type, title and the camera's clip are cleared. |
| Content.ContentView.AddItem | Obsesso/ContentView.swift:234-240 | Appends exactly one record stamped with the current date. |
| Content.ContentView.DeleteItems | Obsesso/ContentView.swift:242-248 | As written: the store loses exactly the records at the given offsets, taken in query order, and nothing else. |
| Content.ContentView.DeleteDisplayedRows | Obsesso/ContentView.swift:242-248 | Corrected: the displayed (reversed) list loses exactly the rows at the given offsets, and nothing else. |
| Content.DeleteItemsRemovesWrongRecord | Obsesso/ContentView.swift:242-247 | With two records, deleting offset 0 as written keeps the newer one. Yet row 0 shows the newer one, and removing that row should keep the older one. |
| Onboarding.PagesShape | Obsesso/OnboardingView.swift:14-45 | There are five pages. Only the first names an image; the others take the `nil` default of `OnboardingPage.init`. |
| Onboarding.Press | Obsesso/OnboardingView.swift:73-81 | A press keeps the page in `0 ..< pages.count`. It either advances one page without completing, or stays and calls `onComplete` once. It completes exactly on the last page. |
| Onboarding.PressTimes | Obsesso/OnboardingView.swift:73-81 | Any number of presses keeps the page in `0 ..< pages.count`. |
| Onboarding.PressTimesWalks | Obsesso/OnboardingView.swift:73-81 | Presses walk one page at a time up to the last page. Each further press calls `onComplete` once and stays there. |
| Onboarding.FifthPressCompletes | Obsesso/OnboardingView.swift:11-81 | From page 0 of the five, four presses reach the last page without completing, and the fifth calls `onComplete`. |
| Onboarding.ButtonLabel | Obsesso/OnboardingView.swift:82 | The button reads "Next" or "Get Started", and "Get Started" exactly on the last page. |
| Onboarding.LabelMatchesPress | Obsesso/OnboardingView.swift:74-82 | The label is "Next" exactly when a press advances, and "Get Started" exactly when a press completes. |
| Onboarding.OnboardingView.constructor | Obsesso/OnboardingView.swift:10-14 | A fresh pager shows the five pages from page 0, with no completion yet. |
| Onboarding.OnboardingView.PressButton | Obsesso/OnboardingView.swift:73-81 | The button moves the pager by exactly one `Press` and keeps the page in range. |
| Onboarding.OnboardingView.SelectTab | Obsesso/OnboardingView.swift:52-69 | Selecting a tab, whose tags are `0 ..< pages.count`, sets the page to the tag and keeps it in range. |

## Left out

- SwiftUI layout and styling are not modelled: every `body`, `RoundedCorner`, `roundedCornerWithBorder`, `PreviewViews`, the alert and its `onChange` wiring, and the Confirm button's opacity. They have no behavioural contract.
- AVFoundation internals are inputs. That covers the real capture, `startRunning` on a background queue (the model only records that running was requested), and the `didStartRecording` callback, which only logs.
- The asynchronous hops are immediate in the model. Access is granted in a callback, then setup runs on the main queue; the finished clip is published on the main queue. Interleavings with other calls are not modelled.
- `DateFormatter` and `Date()` are not modelled: the formatted date string and the current time are parameters. Intervals are `real`, not `Double`.
- The URL operations work on absolute strings. Percent-encoding and directory handling beyond one separator are not modelled.
- SwiftData persistence is not modelled. The container, its `fatalError` path and `@Query` mechanics are left out; the store is a list in insertion order.
- `ObsessoApp.swift` routing is not modelled. `onComplete` sets `hasCompletedOnboarding` there; here it is counted as `completions`.
- The `preview` view of each onboarding page is not modelled.
- Logging via `print` is not modelled.
- Camera.CameraModel.SetupCaptureSession: requires that no output exists yet. Its only caller is the permission check at construction, so a second setup, which would replace a live output, is not modelled.
- Content.ContentView.DeleteItems: requires every offset to be a valid position of the list. The source traps on any other offset.

## Findings

| source | as written | input that shows it | evidently intended | confidence | as-written member | corrected member |
|---|---|---|---|---|---|---|
| Obsesso/ContentView.swift:242-247 | `deleteItems` deletes `items[index]` for each offset. The offsets come from `onDelete` on a `ForEach` over `items.reversed()` (lines 75, 83). | Records [older, newer], shown as rows [newer, older]. Swipe-delete row 0 (newer): `older` is deleted. | Delete `items[items.count - 1 - index]`, the record the swiped row shows. | medium, not executed | Content.DeleteItemsRemovesWrongRecord | Content.ContentView.DeleteDisplayedRows |
| Obsesso/ContentView.swift:37-43 | The second branch tests `timeSince > 1`, so an interval of exactly 1 s falls through to "hour". | An interval of 1.0 s reads "hour"; 1.5 s reads "a minute". | `timeSince >= 1` (an interval of 1 s reads "a minute"). | low, not executed | Content.TimePhraseNotMonotone | Content.TimePhraseIntended |

`Content.Header` shows the phrase as written, as the program does, so at exactly 1 s it reads "hour". `Content.ContentView.DeleteItems` stays as written, and `Content.ContentView.DeleteDisplayedRows` is the corrected deletion. `Content.TimePhraseIntendedMonotone` proves the corrected phrase is monotone.
