# LunaFrame badge firmware: slideshow and image store

This project models the part of the LunaFrame badge firmware that has logic of its own. The badge has a small round display. It cycles through up to five images (slots 0 to 4) that a phone uploads through the badge's captive Wi-Fi portal. The model covers these parts:

- **Slide advance.** `updateSlide` looks at the slots after the shown one, in cyclic order, and shows the first one whose file exists. When that is the slot already shown, nothing is redrawn. When no image is left, the display falls back once to the default screen: the QR image `/QR.png`, or the text "Upload image".
- **Tick gate.** The main loop calls `updateSlide` only after the 60 s startup hold has passed or a start has been forced, and only once more than `slideInterval` ms have passed since the last slide.
- **HTTP handlers that change state.** These are `/upload` (the streamed write and the completion handler), `/delete`, `/get-interval`, `/set-interval` and `/start-slideshow`.
- **Configuration file.** `/config.txt` holds the slide interval as one decimal line.

The modules follow those parts:

- `Basics`: `Option`, bytes, and the target's 32-bit `unsigned long` and `long` ranges.
- `Text`: the Arduino `String` operations the firmware relies on, namely decimal printing, `toInt` (`strtol` base 10, saturating at the 32-bit `long` bounds), `trim` and `readStringUntil`.
- `Store`: the flat flash file system as a map from path to bytes. It also holds the slot paths `"/image" + id + ".png"`, the upload target path, the set of slots whose file exists, and the save/load format of the interval.
- `Slideshow`: the selection rule of `updateSlide` as pure functions, with the proofs that it picks the first present slot in cyclic order and visits the slots in fair round-robin order. It also has the tick gate with `millis()` arithmetic modulo 2^32.
- `Firmware`: class `Badge`. Its fields are the firmware globals (`slideInterval`, `lastSlideTime`, `currentSlideIndex`, `lastActivity`, `forceSlideshow`), the file store, and the open upload file. A ghost log `screen` records what is done to the panel: `Clear`, `Draw(path)` and `Print(text)`. That log is how "no redraw" and "fallback once" are stated. Each handler is a method run as one atomic step.

The code behaves as follows in places where one might expect otherwise, and the model follows the code:

- `loadConfig` checks only `val >= 1000`. A stored value above the 60000 ms that `/set-interval` allows is still adopted (`Store.LoadHasNoUpperBound`).
- `saveConfig` uses `println`, which ends the line with CR LF. `loadConfig` reads up to the LF and `trim` removes the CR, so the value round-trips (`Store.ConfigRoundTrip`).
- The streamed upload builds its path from the raw `id` text, but the completion handler uses `toInt(id)`. An `id` of `99` writes `/image99.png`, which is not a slot file (`Store.UploadOutOfRangeIdWritesStrayFile`). An `id` of `03` writes `/image03.png` while the display switches to slot 3, whose file is `/image3.png` (`Store.UploadLeadingZeroIdMissesSlot`). The two agree for ids written as the firmware prints slot numbers (`Store.CanonicalIdNamesItsSlot`).
- With no `id`, an upload goes to `/image0.png`, but the completion handler does not switch the display.
- Handlers change the globals directly; there is no command queue. The last-activity timestamp is refreshed only when an upload finishes (and by the page handlers left out below), not by delete, interval change or forced start.
- `currentSlideIndex` can be -1 while images exist (during the startup hold), and it can name a slot whose file is missing (after an upload with `id` `03`).

## Model

| member | source | states |
|---|---|---|
| `Text.Decimal` | Firmware/src/main.cpp:377 | the printed form of a number is a non-empty run of digits with no leading zero |
| `Text.ToInt` | Firmware/src/main.cpp:362 | `toInt` always yields a value in the 32-bit `long` range |
| `Text.Saturate` | Firmware/src/main.cpp:362 | an out-of-range conversion is clamped to the nearest 32-bit bound; in-range values are kept |
| `Text.Trim` | Firmware/src/main.cpp:360 | the trimmed line neither starts nor ends with white space |
| `Text.UntilNewline` | Firmware/src/main.cpp:359 | the line read is the longest prefix without a newline, and stops at a newline when one follows |
| `Text.DecimalValue` | Firmware/src/main.cpp:377 | the digits printed for `n` denote `n` |
| `Text.ToIntDecimal` | Firmware/src/main.cpp:301 | `toInt` of the printed form of any `n` up to 2^31-1 is `n` again |
| `Text.ToIntNonNumeric` | Firmware/src/main.cpp:361-362 | text without any digit converts to 0 |
| `Text.LeadingZeroNotCanonical` | Firmware/src/main.cpp:256 | `"03"` converts to 3, whose printed form is `"3"` |
| `Store.SlotPath` | Firmware/src/main.cpp:337 | a slot path is `/image`, the id text, then `.png` |
| `Store.SlotFile` | Firmware/src/main.cpp:203 | slot `i`'s file is `/image` followed by its single digit and `.png` |
| `Store.UploadPath` | Firmware/src/main.cpp:333-338 | without `id` the upload goes to slot 0's file; otherwise to the path built from the raw `id` text |
| `Store.SlotsPresent` | Firmware/src/main.cpp:204 | a slot counts as present exactly when it is in range and its file exists |
| `Store.Chars` | Firmware/src/main.cpp:359 | the file is read byte for byte as characters |
| `Store.ConfigBytes` | Firmware/src/main.cpp:374-380 | the saved file reads as the decimal interval followed by CR LF |
| `Store.ConfigValue` | Firmware/src/main.cpp:359-362 | the number read from the config file (first line up to the LF, trimmed, through `toInt`) lies in the 32-bit `long` range |
| `Store.LoadedInterval` | Firmware/src/main.cpp:355-369 | with no config file the interval is kept; otherwise it is kept or replaced by a stored value between 1000 and 2^31-1 |
| `Store.SlotPathInjective` | Firmware/src/main.cpp:337 | different `id` texts give different paths |
| `Store.SlotFilesDistinct` | Firmware/src/main.cpp:203 | two slots share a file only if they are the same slot |
| `Store.UploadSparesReservedFiles` | Firmware/src/main.cpp:337-339 | no upload path is the text `/config.txt` or `/QR.png` |
| `Store.RemoveSlotFile` | Firmware/src/main.cpp:272-274 | deleting slot `n`'s file removes slot `n`, and only it, from the present slots |
| `Store.WriteOtherFile` | Firmware/src/main.cpp:339 | writing a file that is not a slot file leaves the present slots unchanged |
| `Store.UploadOutOfRangeIdWritesStrayFile` | Firmware/src/main.cpp:335-339 | `id` `99` converts to 99 and the upload writes a file that is no slot's, leaving the slots as they were |
| `Store.UploadLeadingZeroIdMissesSlot` | Firmware/src/main.cpp:256-259 | `id` `03` converts to slot 3, but the upload wrote a file that is not slot 3's, nor any slot's |
| `Store.CanonicalIdNamesItsSlot` | Firmware/src/main.cpp:335-337 | for `id` = the printed slot number, the uploaded file is the file of the slot the completion handler shows |
| `Store.ConfigRoundTrip` | Firmware/src/main.cpp:355-380 | after saving any interval from 1000 to 2^31-1, loading yields that interval |
| `Store.ConfigBelowMinimumIgnored` | Firmware/src/main.cpp:363-365 | a stored value below 1000 leaves the interval at its previous value |
| `Store.ConfigNonNumericIgnored` | Firmware/src/main.cpp:361-365 | a stored file without digits leaves the interval at its previous value |
| `Store.LoadHasNoUpperBound` | Firmware/src/main.cpp:363-364 | a stored 100000 is adopted, above the 60000 that `/set-interval` allows |
| `Slideshow.Dist` | Firmware/src/main.cpp:201-202 | the number of probes to reach a slot lies in 1..5, probing that many steps lands on it, and it is 5 exactly for the shown slot itself |
| `Slideshow.Probe` | Firmware/src/main.cpp:202 | the slot examined at each probe, `(index + 1) % 5` iterated from the shown index, is always a slot 0..4 |
| `Slideshow.Scan` | Firmware/src/main.cpp:201-214 | a slot the probe loop stops at is in range and present |
| `Slideshow.NextSlot` | Firmware/src/main.cpp:198-213 | the slot the probe loop settles on, when there is one, is a present slot in 0..4 (`Slideshow.NextSlotIsFirstAfter` shows it is the first one after the shown slot) |
| `Slideshow.Step` | Firmware/src/main.cpp:216-218 | the index after an advance is a slot or -1 |
| `Slideshow.Orbit` | Firmware/src/main.cpp:196-228 | the index after any number of advances is a slot or -1 |
| `Slideshow.ScanIsFirst` | Firmware/src/main.cpp:201-213 | the probe stops at the first present slot among the remaining probes, and finds nothing only when none of them is present |
| `Slideshow.NextSlotIsFirstAfter` | Firmware/src/main.cpp:198-213 | advancing selects exactly the present slot nearest after the shown one in cyclic order, and finds none exactly when no slot is present |
| `Slideshow.FromDefaultShowsLowestSlot` | Firmware/src/main.cpp:198-202 | from the default screen (-1) the lowest present slot is selected |
| `Slideshow.SelectsItselfIffOnlyImage` | Firmware/src/main.cpp:205-210 | the shown slot is selected again, so nothing is redrawn, exactly when it is the only present slot |
| `Slideshow.ReachedInCyclicOrder` | Firmware/src/main.cpp:196-214 | with the store unchanged, every present slot is shown within its cyclic distance from the shown one, and only slots before it in cyclic order are shown on the way |
| `Slideshow.OthersShownBeforeReturn` | Firmware/src/main.cpp:196-214 | round robin: from a shown slot, every other present slot is shown before that slot is shown again |
| `Slideshow.TickDue` | Firmware/src/main.cpp:153-154 | an advance is due only after the 60000 ms startup hold or a forced start, and only when more than the interval has elapsed; with an interval of 2^32-1 or more it is never due |
| `Slideshow.Elapsed` | Firmware/src/main.cpp:154 | `millis() - lastSlideTime` is the plain difference, or that difference plus 2^32 after the counter wrapped |
| `Firmware.DefaultScreen` | Firmware/src/main.cpp:220-224 | the default screen is the QR image exactly when `/QR.png` exists, otherwise the upload prompt |
| `Firmware.IntervalSetting` | Firmware/src/main.cpp:305-307 | a request value is accepted exactly when it is present and converts into 1000..60000, and the accepted interval is that conversion |
| `Firmware.SlotParam` | Firmware/src/main.cpp:255-257 | an `id` names a slot exactly when it is present and converts into 0..4 |
| `Firmware.Badge.Boot` | Firmware/src/main.cpp:101-142 | at boot the interval is the one loaded over the default 3000 and the index is -1; the panel shows "Booting..." then the QR image or the prompt; activity time is the boot time |
| `Firmware.Badge.DrawImage` | Firmware/src/main.cpp:179-191 | a file is drawn, and `true` reported, exactly when it exists |
| `Firmware.Badge.DrawDefault` | Firmware/src/main.cpp:220-224 | the panel gets the default screen |
| `Firmware.Badge.FindNextSlide` | Firmware/src/main.cpp:197-214 | the probe loop finds a slot exactly when some slot is present, and then it is the first present one after the shown slot in cyclic order |
| `Firmware.Badge.UpdateSlide` | Firmware/src/main.cpp:196-228 | the index becomes the next present slot, or -1 when none is present. The panel is cleared and redrawn only if the slot changed. `lastSlideTime` is refreshed exactly when a slot was found. The default screen is drawn only when leaving a slot, so a second call with no images changes nothing. The index stays in -1..4 |
| `Firmware.Badge.Loop` | Firmware/src/main.cpp:153-156 | the loop advances exactly when the startup delay has passed or a start was forced, and more than the interval has elapsed; `lastSlideTime` then takes the clock read after the probe and draw; otherwise nothing changes |
| `Firmware.Badge.HandleUpload` | Firmware/src/main.cpp:331-350 | the first chunk creates or empties the target file, which exists from then on. Later chunks append to the open file. The final chunk closes it and refreshes the activity time |
| `Firmware.Badge.UploadComplete` | Firmware/src/main.cpp:249-266 | the reply is always 200. When `id` names a slot, that slot becomes the shown one, the panel is cleared and the slot's file drawn if it exists, and `lastSlideTime` is reset; otherwise nothing changes |
| `Firmware.Badge.Delete` | Firmware/src/main.cpp:268-290 | the replies are 400 "Missing ID", 400 "Invalid ID", 404 with nothing changed, or 200 "Deleted". On 200, exactly that slot's file is gone when the removal succeeded and the store is unchanged when it failed. The slideshow advances only if the deleted slot was the one shown, whether or not the removal succeeded |
| `Firmware.Badge.GetInterval` | Firmware/src/main.cpp:300-302 | the reply is 200 with the interval in decimal, which converts back to the interval |
| `Firmware.Badge.SetInterval` | Firmware/src/main.cpp:304-317 | a value of 1000 to 60000 is adopted, the config file is rewritten with it and nothing else in the store changes, and the reply is 200; otherwise the reply is 400 "Invalid value" or 400 "Missing value" and nothing changes (`Store.ConfigRoundTrip` then shows that a reload restores the value) |
| `Firmware.Badge.StartSlideshow` | Firmware/src/main.cpp:319-323 | the start is forced and the slideshow advances at once, whatever the startup hold; the reply is 200 "OK" |
| `Firmware.Badge.LoadConfig` | Firmware/src/main.cpp:355-369 | the interval becomes the loaded value over the previous one |
| `Firmware.Badge.SaveConfig` | Firmware/src/main.cpp:374-380 | the config file is replaced by the interval's decimal line and nothing else changes |

## Left out

- Display panel and SPI bus setup, brightness, rotation, text position and size, and PNG decoding. Drawing is recorded as an abstract event, and a file that exists is assumed to open.
- Wi-Fi access point, captive DNS, transmit power and the Wi-Fi idle teardown in `loop`. These are network I/O. `lastActivity` is kept as a field, but its only reader, the teardown, is not modelled.
- The portal page handler `/`, the not-found handler and static file serving. They are network plumbing. The `/` and not-found handlers also refresh `lastActivity`; static file serving does not.
- The busy-wait dummy load and the CPU frequency setting. These are power hacks with no logical content.
- The halt when the flash file system fails to mount at boot. The model starts from a mounted store.
- The asynchronous interleaving of web-server callbacks with `loop()`. Each handler is one atomic step, and only one upload is in progress at a time.
- Store.UploadSparesReservedFiles: paths are compared as whole texts. The model has no directories, resolves no `.` or `..` components and does not cut a path at a NUL byte. So an `id` such as `/../QR`, or `/../config.txt` followed by an encoded NUL, is not captured; on the device either may let an upload reach `/QR.png` or `/config.txt`.
- Firmware.Badge.SaveConfig, Firmware.Badge.SetInterval, Firmware.Badge.LoadConfig and Firmware.Badge.HandleUpload: every file open and write is assumed to succeed. On the target, `saveConfig` writes nothing when `/config.txt` cannot be opened, and `/set-interval` still adopts the value and replies 200 "OK", so the stored file stays as it was. `loadConfig` skips a file it cannot open. A chunk write may store fewer bytes than sent, leaving a short image while the upload still completes with 200.
- Firmware.Badge.HandleUpload: opening the target file is assumed to succeed. If the file is nevertheless removed while its upload is open, later chunks are dropped rather than recreating it. On the device the file system may instead refuse that removal, which `Firmware.Badge.Delete` covers with its `removed` parameter.
- Firmware.Badge.Loop: the two clock reads in the gate condition are taken as one value `now`; the read after the draw is a separate parameter.
- Whether `id` arrives as a query or a form parameter. Each handler receives the parameter it reads as an optional string.
- `3DModels/python/convert_step_to_stl.py` is not part of this model. It is a CAD-export script unrelated to the firmware.
