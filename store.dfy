/**
 * The flash file system as the firmware sees it: one flat namespace of paths,
 * the slot image paths `/image<id>.png`, the default image `/QR.png`, and the
 * configuration file `/config.txt` holding the slide interval in decimal.
 */
module Store {
  import opened Basics
  import opened Text

  /** Number of image slots; slots are `0 .. MAX_IMAGES - 1`. */
  const MAX_IMAGES: int := 5

  /** The interval in milliseconds the firmware starts with when nothing valid is stored. */
  const DEFAULT_INTERVAL: int := 3000

  /** Smallest stored interval `loadConfig` accepts. */
  const MIN_LOADED_INTERVAL: int := 1000

  const ConfigPath: string := "/config.txt"
  const DefaultImagePath: string := "/QR.png"

  /** The files present, each with its contents. */
  type FileStore = map<string, seq<byte>>

  /** `"/image" + id + ".png"`, built from whatever text `id` is. */
  function SlotPath(id: string): (p: string)
    ensures |p| == |id| + 10 && p[..6] == "/image" && p[|p| - 4..] == ".png"
  {
    "/image" + id + ".png"
  }

  /** The path of slot `i`: its number printed in decimal. */
  function SlotFile(i: int): (p: string)
    requires 0 <= i < MAX_IMAGES
    ensures p == SlotPath([DigitChar(i)])
  {
    SlotPath(Decimal(i))
  }

  /** Where a streamed upload is written: `/image0.png` without an `id`, otherwise the raw `id` text. */
  function UploadPath(id: Option<string>): (p: string)
    ensures id.None? ==> p == SlotFile(0)
    ensures id.Some? ==> p == SlotPath(id.value)
  {
    match id
    case None => "/image0.png"
    case Some(s) => SlotPath(s)
  }

  /** The slots whose image file exists. */
  function SlotsPresent(files: FileStore): (p: set<int>)
    ensures forall i :: i in p <==> 0 <= i < MAX_IMAGES && SlotFile(i) in files
  {
    set i | 0 <= i < MAX_IMAGES && SlotFile(i) in files
  }

  /** Bytes of a string of 8-bit characters. */
  function Bytes(s: string): (b: seq<byte>)
    requires forall i :: 0 <= i < |s| ==> s[i] as int < 256
    ensures |b| == |s| && forall i :: 0 <= i < |s| ==> b[i] == s[i] as int
  {
    seq(|s|, i requires 0 <= i < |s| => s[i] as int as byte)
  }

  /** A file read character by character, as `Stream::readStringUntil` does. */
  function Chars(b: seq<byte>): (s: string)
    ensures |s| == |b| && forall i :: 0 <= i < |b| ==> s[i] as int == b[i]
  {
    seq(|b|, i requires 0 <= i < |b| => b[i] as char)
  }

  /** What `saveConfig` writes: `println(slideInterval)`, the decimal digits followed by CR LF. */
  function ConfigBytes(v: nat): (b: seq<byte>)
    ensures Chars(b) == Decimal(v) + "\r\n"
  {
    var s := Decimal(v) + "\r\n";
    assert forall i :: 0 <= i < |s| ==> s[i] as int < 256 by {
      forall i | 0 <= i < |s| ensures s[i] as int < 256 {
        if i < |Decimal(v)| { assert IsDigit(s[i]); }
      }
    }
    Bytes(s)
  }

  /** The number `loadConfig` reads: first line, trimmed, through `toInt`. */
  function ConfigValue(content: seq<byte>): (v: int)
    ensures INT32_MIN <= v <= INT32_MAX
  {
    ToInt(Trim(UntilNewline(Chars(content))))
  }

  /**
   * The interval after `loadConfig`: a stored value of at least 1000 replaces
   * `current`; a missing file, a smaller value or text that is not a number
   * (which converts to 0) leaves `current` as it was. There is no upper bound.
   */
  function LoadedInterval(files: FileStore, current: int): (r: int)
    ensures ConfigPath !in files ==> r == current
    ensures r == current || (r >= MIN_LOADED_INTERVAL && r <= INT32_MAX && ConfigPath in files)
  {
    if ConfigPath in files && ConfigValue(files[ConfigPath]) >= MIN_LOADED_INTERVAL
    then ConfigValue(files[ConfigPath])
    else current
  }

  // ---------------------------------------------------------------------------
  // Properties
  // ---------------------------------------------------------------------------

  /** Different `id` texts name different files. */
  lemma SlotPathInjective(a: string, b: string)
    requires SlotPath(a) == SlotPath(b)
    ensures a == b
  {
    var p := SlotPath(a);
    assert a == p[6..|p| - 4];
    assert b == SlotPath(b)[6..|p| - 4];
  }

  /** The slots have pairwise different files. */
  lemma SlotFilesDistinct(i: int, j: int)
    requires 0 <= i < MAX_IMAGES && 0 <= j < MAX_IMAGES
    ensures SlotFile(i) == SlotFile(j) <==> i == j
  {
    if SlotFile(i) == SlotFile(j) {
      SlotPathInjective([DigitChar(i)], [DigitChar(j)]);
      assert DigitChar(i) == [DigitChar(i)][0];
    }
  }

  /** No upload path is the text `/config.txt` or `/QR.png`. */
  lemma UploadSparesReservedFiles(id: Option<string>)
    ensures UploadPath(id) != ConfigPath && UploadPath(id) != DefaultImagePath
  {
    var p := UploadPath(id);
    assert p[1] == "/image"[1];
  }

  /** Removing slot `n`'s file removes exactly slot `n` from the present slots. */
  lemma RemoveSlotFile(files: FileStore, n: int)
    requires 0 <= n < MAX_IMAGES
    ensures SlotsPresent(files - {SlotFile(n)}) == SlotsPresent(files) - {n}
  {
    forall i | 0 <= i < MAX_IMAGES
      ensures SlotFile(i) in files - {SlotFile(n)} <==> SlotFile(i) in files && i != n
    {
      SlotFilesDistinct(i, n);
    }
  }

  /** Writing any file that is not a slot file leaves the set of present slots as it was. */
  lemma WriteOtherFile(files: FileStore, path: string, content: seq<byte>)
    requires forall i :: 0 <= i < MAX_IMAGES ==> path != SlotFile(i)
    ensures SlotsPresent(files[path := content]) == SlotsPresent(files)
  {
  }

  /**
   * An upload whose `id` is `99` writes `/image99.png`, which is not a slot file,
   * although that `id` is rejected by every other handler.
   */
  lemma UploadOutOfRangeIdWritesStrayFile(files: FileStore, content: seq<byte>)
    ensures ToInt("99") == 99
    ensures UploadPath(Some("99")) !in SlotFilesSet()
    ensures SlotsPresent(files[UploadPath(Some("99")) := content]) == SlotsPresent(files)
  {
    assert Decimal(99) == "99" by { assert Decimal(9) == "9"; }
    ToIntDecimal(99);
    // A slot file name is one character shorter than this one.
    assert forall i :: 0 <= i < MAX_IMAGES ==> |UploadPath(Some("99"))| != |SlotFile(i)|;
    WriteOtherFile(files, UploadPath(Some("99")), content);
  }

  /**
   * An upload with `id` `03` is written to `/image03.png`, while `toInt` reads the
   * same `id` as slot 3, whose file is `/image3.png`.
   */
  lemma UploadLeadingZeroIdMissesSlot()
    ensures ToInt("03") == 3
    ensures UploadPath(Some("03")) != SlotFile(3)
    ensures UploadPath(Some("03")) !in SlotFilesSet()
  {
    LeadingZeroNotCanonical();
    // A slot file name is one character shorter than this one.
    assert forall i :: 0 <= i < MAX_IMAGES ==> |UploadPath(Some("03"))| != |SlotFile(i)|;
  }

  /**
   * For an `id` written the way the firmware prints slot numbers, the streamed
   * upload and its completion handler agree: the file written is the file of
   * the slot the completion handler shows.
   */
  lemma CanonicalIdNamesItsSlot(i: int)
    requires 0 <= i < MAX_IMAGES
    ensures ToInt(Decimal(i)) == i
    ensures UploadPath(Some(Decimal(i))) == SlotFile(i)
  {
    ToIntDecimal(i);
  }

  /** The files of the slots `0 .. MAX_IMAGES - 1`. */
  function SlotFilesSet(): (s: set<string>)
    ensures forall i :: 0 <= i < MAX_IMAGES ==> SlotFile(i) in s
    ensures forall p :: p in s ==> exists i :: 0 <= i < MAX_IMAGES && p == SlotFile(i)
  {
    set i | 0 <= i < MAX_IMAGES :: SlotFile(i)
  }

  /** The saved interval reads back as itself: what `saveConfig` writes, `loadConfig` restores. */
  lemma ConfigRoundTrip(files: FileStore, v: int, current: int)
    requires MIN_LOADED_INTERVAL <= v <= INT32_MAX
    ensures LoadedInterval(files[ConfigPath := ConfigBytes(v)], current) == v
  {
    ConfigValueOf(v);
  }

  lemma ConfigValueOf(v: nat)
    requires v <= INT32_MAX
    ensures ConfigValue(ConfigBytes(v)) == v
  {
    var d := Decimal(v);
    assert Chars(ConfigBytes(v)) == d + "\r" + "\n" + [];
    assert forall i :: 0 <= i < |d + "\r"| ==> (d + "\r")[i] != '\n' by {
      forall i | 0 <= i < |d + "\r"| ensures (d + "\r")[i] != '\n' {
        if i < |d| { assert IsDigit(d[i]); }
      }
    }
    UntilNewlineStops(d + "\r", []);
    TrimDigitsCr(d);
    ToIntDecimal(v);
  }

  /** A stored value below 1000 is ignored at load: the interval keeps its previous value. */
  lemma ConfigBelowMinimumIgnored(files: FileStore, v: nat, current: int)
    requires v < MIN_LOADED_INTERVAL
    ensures LoadedInterval(files[ConfigPath := ConfigBytes(v)], current) == current
  {
    ConfigValueOf(v);
  }

  /** A configuration file without any digit is read as 0 and ignored. */
  lemma ConfigNonNumericIgnored(files: FileStore, current: int)
    requires ConfigPath in files
    requires NoDigits(Chars(files[ConfigPath]))
    ensures LoadedInterval(files, current) == current
  {
    NoDigitsLine(Chars(files[ConfigPath]));
    ToIntNonNumeric(Trim(UntilNewline(Chars(files[ConfigPath]))));
  }

  /** Loading accepts stored values above the 60000 ms the control surface allows. */
  lemma LoadHasNoUpperBound(files: FileStore)
    ensures LoadedInterval(files[ConfigPath := ConfigBytes(100000)], DEFAULT_INTERVAL) == 100000
  {
    ConfigRoundTrip(files, 100000, DEFAULT_INTERVAL);
  }
}
