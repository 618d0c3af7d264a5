/**
 * The badge's global state and the operations that change it: boot, the main
 * loop's slideshow tick, `updateSlide`, and the HTTP handlers for upload,
 * delete, interval and forced start. Each handler is one atomic step.
 */
module Firmware {
  import opened Basics
  import opened Text
  import opened Store
  import opened Slideshow

  /** Bounds `/set-interval` accepts, in milliseconds. */
  const MIN_INTERVAL_SETTING: int := 1000
  const MAX_INTERVAL_SETTING: int := 60000

  /** What the firmware does to the panel: fill it black, draw a PNG file, print a line of text. */
  datatype LcdEvent = Clear | Draw(path: string) | Print(msg: string)

  /** A plain-text HTTP reply. */
  datatype Response = Response(status: int, body: string)

  /** The default screen: the QR image when its file exists, otherwise the upload prompt. */
  function DefaultScreen(files: FileStore): (e: seq<LcdEvent>)
    ensures |e| == 1
    ensures e[0].Draw? <==> DefaultImagePath in files
    ensures e[0].Draw? ==> e[0].path == DefaultImagePath
    ensures !e[0].Draw? ==> e[0] == Print("Upload image")
  {
    if DefaultImagePath in files then [Draw(DefaultImagePath)] else [Print("Upload image")]
  }

  /** The slot an `id` parameter names: present, and converting to a number in `0 .. MAX_IMAGES - 1`. */
  function SlotParam(id: Option<string>): (r: Option<int>)
    ensures r.Some? <==> id.Some? && 0 <= ToInt(id.value) < MAX_IMAGES
    ensures r.Some? ==> r.value == ToInt(id.value)
  {
    if id.Some? && 0 <= ToInt(id.value) < MAX_IMAGES then Some(ToInt(id.value)) else None
  }

  /** The interval a `/set-interval` request asks for, when it gives one in 1000..60000 ms. */
  function IntervalSetting(value: Option<string>): (r: Option<int>)
    ensures r.Some? <==> value.Some? && MIN_INTERVAL_SETTING <= ToInt(value.value) <= MAX_INTERVAL_SETTING
    ensures r.Some? ==> r.value == ToInt(value.value) && MIN_INTERVAL_SETTING <= r.value <= MAX_INTERVAL_SETTING
  {
    if value.Some? && MIN_INTERVAL_SETTING <= ToInt(value.value) <= MAX_INTERVAL_SETTING then
      Some(ToInt(value.value))
    else
      None
  }

  class Badge {
    var slideInterval: u32
    var lastSlideTime: u32
    var currentSlideIndex: int
    var lastActivity: u32
    var forceSlideshow: bool
    /** The flash file system: every path present, with its contents. */
    var files: FileStore
    /** The file an upload in progress writes to (the request's temporary file handle). */
    var uploadFile: Option<string>
    /** Everything drawn on the panel so far, oldest first. */
    ghost var screen: seq<LcdEvent>

    ghost predicate Valid()
      reads this
    {
      IsShown(currentSlideIndex) && MIN_LOADED_INTERVAL <= slideInterval <= INT32_MAX
    }

    /**
     * The state `updateSlide` leaves, given the shown slot, the last slide time
     * and the panel history it started from: the next present slot in cyclic
     * order is shown, redrawn only if it differs from the one shown before;
     * with no image left the default screen is drawn, but only on leaving a slot.
     */
    ghost predicate SlideAdvanced(cur0: int, last0: u32, screen0: seq<LcdEvent>, now: u32)
      requires IsShown(cur0)
      reads this
    {
      var present := SlotsPresent(files);
      currentSlideIndex == Step(cur0, present) &&
      match NextSlot(cur0, present)
      case Some(s) =>
        lastSlideTime == now &&
        screen == screen0 + (if s == cur0 then [] else [Clear, Draw(SlotFile(s))])
      case None =>
        lastSlideTime == last0 &&
        screen == screen0 + (if cur0 == NO_SLIDE then [] else [Clear] + DefaultScreen(files))
    }

    /** `setup()`: load the configuration, then show the QR image or the upload prompt. */
    constructor Boot(stored: FileStore, now: u32)
      ensures Valid()
      ensures files == stored && uploadFile == None && !forceSlideshow
      ensures slideInterval == LoadedInterval(stored, DEFAULT_INTERVAL)
      ensures currentSlideIndex == NO_SLIDE && lastSlideTime == 0 && lastActivity == now
      ensures screen == [Clear, Print("Booting...")] + DefaultScreen(stored)
    {
      slideInterval := DEFAULT_INTERVAL;
      lastSlideTime := 0;
      currentSlideIndex := NO_SLIDE;
      lastActivity := 0;
      forceSlideshow := false;
      files := stored;
      uploadFile := None;
      screen := [Clear, Print("Booting...")];
      new;
      LoadConfig();
      DrawDefault();
      lastActivity := now;
    }

    /** Show the QR image, or print the upload prompt when it cannot be drawn. */
    method DrawDefault()
      modifies this`screen
      ensures screen == old(screen) + DefaultScreen(files)
    {
      var shown := DrawImage(DefaultImagePath);
      if !shown {
        screen := screen + [Print("Upload image")];
      }
    }

    /** `drawImage`: draws the file when it exists and reports whether it did. */
    method DrawImage(path: string) returns (shown: bool)
      modifies this`screen
      ensures shown <==> path in files
      ensures screen == old(screen) + (if shown then [Draw(path)] else [])
    {
      shown := path in files;
      if shown {
        screen := screen + [Draw(path)];
      }
    }

    /**
     * The probe loop of `updateSlide`: up to `MAX_IMAGES` slots after the shown
     * one, in cyclic order, stopping at the first whose file exists.
     */
    method FindNextSlide() returns (found: bool, nextIndex: int)
      requires Valid()
      ensures found <==> NextSlot(currentSlideIndex, SlotsPresent(files)).Some?
      ensures found ==> NextSlot(currentSlideIndex, SlotsPresent(files)) == Some(nextIndex)
    {
      ghost var present := SlotsPresent(files);
      found := false;
      nextIndex := currentSlideIndex;
      var i := 0;
      while i < MAX_IMAGES
        invariant 0 <= i <= MAX_IMAGES
        invariant nextIndex == if i == 0 then currentSlideIndex else Probe(currentSlideIndex, i)
        invariant NextSlot(currentSlideIndex, present) == Scan(currentSlideIndex, present, i + 1)
      {
        // nextIndex + 1 is never negative, so C++'s % and Dafny's agree here.
        ProbeSucc(currentSlideIndex, i);
        nextIndex := (nextIndex + 1) % MAX_IMAGES;
        var path := SlotFile(nextIndex);
        if path in files {
          found := true;
          break;
        }
        i := i + 1;
      }
    }

    /**
     * `updateSlide`: show the first present slot after the shown one, without
     * redrawing when it is already shown; with no image left, fall back to the
     * default screen unless it is already up.
     */
    method UpdateSlide(now: u32)
      requires Valid()
      modifies this`currentSlideIndex, this`lastSlideTime, this`screen
      ensures Valid()
      ensures SlideAdvanced(old(currentSlideIndex), old(lastSlideTime), old(screen), now)
    {
      var found, nextIndex := FindNextSlide();
      if found {
        if currentSlideIndex != nextIndex {
          ghost var cleared := screen + [Clear];
          screen := cleared;
          var drawn := DrawImage(SlotFile(nextIndex));
          assert screen == cleared + [Draw(SlotFile(nextIndex))];
          currentSlideIndex := nextIndex;
        }
        lastSlideTime := now;
      } else if currentSlideIndex != NO_SLIDE {
        currentSlideIndex := NO_SLIDE;
        ghost var cleared := screen + [Clear];
        screen := cleared;
        DrawDefault();
        assert screen == cleared + DefaultScreen(files);
      }
    }

    /**
     * One pass of `loop()` as far as the slideshow goes: advance when the tick
     * gate, read at `now`, is open. `later` is the clock as `updateSlide` reads
     * it after probing and drawing, which is the time the next interval counts from.
     */
    method Loop(now: u32, later: u32)
      requires Valid()
      modifies this`currentSlideIndex, this`lastSlideTime, this`screen
      ensures Valid()
      ensures TickDue(now, old(lastSlideTime), slideInterval, forceSlideshow) ==>
        SlideAdvanced(old(currentSlideIndex), old(lastSlideTime), old(screen), later)
      ensures !TickDue(now, old(lastSlideTime), slideInterval, forceSlideshow) ==> unchanged(this)
    {
      if TickDue(now, lastSlideTime, slideInterval, forceSlideshow) {
        UpdateSlide(later);
      }
    }

    /** `handleUpload`: one chunk of a streamed upload. */
    method HandleUpload(id: Option<string>, index: nat, data: seq<byte>, final: bool, now: u32)
      modifies this`files, this`uploadFile, this`lastActivity
      ensures index == 0 ==> UploadPath(id) in files
      ensures var target := if index == 0 then Some(UploadPath(id)) else old(uploadFile);
              var prepared := if index == 0 then old(files)[UploadPath(id) := []] else old(files);
              files == if data != [] && target.Some? && target.value in prepared
                       then prepared[target.value := prepared[target.value] + data]
                       else prepared
      ensures uploadFile == if final then None else if index == 0 then Some(UploadPath(id)) else old(uploadFile)
      ensures lastActivity == if final then now else old(lastActivity)
    {
      if index == 0 {
        var path := UploadPath(id);
        files := files[path := []];
        uploadFile := Some(path);
      }
      if data != [] && uploadFile.Some? && uploadFile.value in files {
        files := files[uploadFile.value := files[uploadFile.value] + data];
      }
      if final {
        uploadFile := None;
        lastActivity := now;
      }
    }

    /** `/upload` completion: show the uploaded slot at once when `id` names a slot. */
    method UploadComplete(id: Option<string>, now: u32) returns (r: Response)
      requires Valid()
      modifies this`currentSlideIndex, this`lastSlideTime, this`screen
      ensures Valid()
      ensures r == Response(200, "Upload Complete.")
      ensures match SlotParam(id)
        case Some(n) =>
          currentSlideIndex == n && lastSlideTime == now &&
          screen == old(screen) + [Clear] + (if SlotFile(n) in files then [Draw(SlotFile(n))] else [])
        case None => unchanged(this)
    {
      r := Response(200, "Upload Complete.");
      if id.Some? {
        var n := ToInt(id.value);
        if 0 <= n < MAX_IMAGES {
          currentSlideIndex := n;
          var path := SlotFile(n);
          ghost var before := screen + [Clear];
          screen := before;
          var drawn := DrawImage(path);
          assert screen == before + (if drawn then [Draw(path)] else []);
          lastSlideTime := now;
        }
      }
    }

    /**
     * `/delete`: remove a slot's image, moving the slideshow on if it was the one
     * shown. `removed` is whether the file system carried out the removal; the
     * firmware ignores that outcome and replies "Deleted" either way.
     */
    method Delete(id: Option<string>, removed: bool, now: u32) returns (r: Response)
      requires Valid()
      modifies this`files, this`currentSlideIndex, this`lastSlideTime, this`screen
      ensures Valid()
      ensures id.None? ==> r == Response(400, "Missing ID") && unchanged(this)
      ensures id.Some? && !(0 <= ToInt(id.value) < MAX_IMAGES) ==>
        r == Response(400, "Invalid ID") && unchanged(this)
      ensures id.Some? && 0 <= ToInt(id.value) < MAX_IMAGES && SlotFile(ToInt(id.value)) !in old(files) ==>
        r == Response(404, "File not found") && unchanged(this)
      ensures id.Some? && 0 <= ToInt(id.value) < MAX_IMAGES && SlotFile(ToInt(id.value)) in old(files) ==>
        var n := ToInt(id.value);
        r == Response(200, "Deleted") &&
        files == (if removed then old(files) - {SlotFile(n)} else old(files)) &&
        SlotsPresent(files) == (if removed then SlotsPresent(old(files)) - {n} else SlotsPresent(old(files))) &&
        if old(currentSlideIndex) == n
        then SlideAdvanced(n, old(lastSlideTime), old(screen), now)
        else currentSlideIndex == old(currentSlideIndex) && lastSlideTime == old(lastSlideTime) &&
             screen == old(screen)
    {
      if id.Some? {
        var n := ToInt(id.value);
        if 0 <= n < MAX_IMAGES {
          var path := SlotFile(n);
          if path in files {
            if removed {
              files := files - {path};
              RemoveSlotFile(old(files), n);
            }
            if currentSlideIndex == n {
              UpdateSlide(now);
            }
            r := Response(200, "Deleted");
          } else {
            r := Response(404, "File not found");
          }
        } else {
          r := Response(400, "Invalid ID");
        }
      } else {
        r := Response(400, "Missing ID");
      }
    }

    /** `/get-interval`: the interval in decimal. */
    method GetInterval() returns (r: Response)
      requires Valid()
      ensures r.status == 200 && AllDigits(r.body) && ToInt(r.body) == slideInterval
    {
      r := Response(200, Decimal(slideInterval));
      ToIntDecimal(slideInterval);
    }

    /** `/set-interval`: accept 1000 to 60000 ms, store it and persist it. */
    method SetInterval(value: Option<string>) returns (r: Response)
      requires Valid()
      modifies this`slideInterval, this`files
      ensures Valid()
      ensures match IntervalSetting(value)
        case None =>
          r == (if value.None? then Response(400, "Missing value") else Response(400, "Invalid value")) &&
          unchanged(this)
        case Some(v) =>
          r == Response(200, "OK") && slideInterval == v &&
          files == old(files)[ConfigPath := ConfigBytes(v)]
    {
      var setting := IntervalSetting(value);
      if value.None? {
        r := Response(400, "Missing value");
      } else if setting.None? {
        r := Response(400, "Invalid value");
      } else {
        var val := setting.value;
        slideInterval := val;
        SaveConfig();
        r := Response(200, "OK");
      }
    }

    /** `/start-slideshow`: lift the startup hold and advance immediately. */
    method StartSlideshow(now: u32) returns (r: Response)
      requires Valid()
      modifies this`forceSlideshow, this`currentSlideIndex, this`lastSlideTime, this`screen
      ensures Valid()
      ensures r == Response(200, "OK") && forceSlideshow
      ensures SlideAdvanced(old(currentSlideIndex), old(lastSlideTime), old(screen), now)
    {
      forceSlideshow := true;
      UpdateSlide(now);
      r := Response(200, "OK");
    }

    /** `loadConfig`: adopt a stored interval of at least 1000 ms. */
    method LoadConfig()
      modifies this`slideInterval
      ensures slideInterval == LoadedInterval(files, old(slideInterval))
    {
      if ConfigPath in files {
        var line := Trim(UntilNewline(Chars(files[ConfigPath])));
        var val := ToInt(line);
        if val >= MIN_LOADED_INTERVAL {
          slideInterval := val;
        }
      }
    }

    /** `saveConfig`: write the interval as one decimal line. */
    method SaveConfig()
      modifies this`files
      ensures files == old(files)[ConfigPath := ConfigBytes(slideInterval)]
    {
      files := files[ConfigPath := ConfigBytes(slideInterval)];
    }
  }
}
