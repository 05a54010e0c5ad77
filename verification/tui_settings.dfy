/** The application settings of the terminal UI (the TOML settings file): the
    defaults, the rule that fills in a missing maximum when the file is read,
    and the parsing of the maximum typed on the settings screen. Locating,
    reading and writing the file is outside the model: what the read produced
    is an input, and a write is represented by the configuration it would
    store. */
module Settings {
  import opened Common

  datatype AppConfig = AppConfig(defaultShowAll: bool, enableNotifications: bool, maxWorkItems: int)

  const DefaultMaxWorkItems: int := 50

  /** The settings used when there is no file: show only the user's own items,
      notifications on, at most fifty items. */
  function DefaultConfig(): AppConfig
  {
    AppConfig(false, true, DefaultMaxWorkItems)
  }

  /** The keys a settings file sets. A key the file leaves out decodes to Go's
      zero value (false, 0). */
  datatype ConfigFile = ConfigFile(defaultShowAll: Option<bool>, enableNotifications: Option<bool>, maxWorkItems: Option<int>)

  /** What reading the settings file produced. */
  datatype ReadOutcome =
    | NoConfigDir(error: string)   // the home or config directory could not be determined
    | FileMissing
    | Malformed(error: string)     // the file exists but does not decode
    | Decoded(file: ConfigFile)

  datatype Loaded = Loaded(config: AppConfig, err: Option<string>)

  function ValueOr<T>(o: Option<T>, zero: T): T
  {
    if o.Some? then o.value else zero
  }

  /** `LoadConfigFile`: the defaults (with the error, if any) when the file
      cannot be read, the defaults without an error when it does not exist;
      otherwise the decoded keys, absent ones as zero, with a zero maximum
      replaced by fifty. */
  function LoadConfigFile(read: ReadOutcome): (r: Loaded)
    ensures r.config.maxWorkItems != 0
    ensures r.err.Some? <==> read.NoConfigDir? || read.Malformed?
    ensures !read.Decoded? ==> r.config == DefaultConfig()
    ensures read.Decoded? ==>
      && r.config.defaultShowAll == (read.file.defaultShowAll == Some(true))
      && r.config.enableNotifications == (read.file.enableNotifications == Some(true))
    ensures read.Decoded? && read.file.maxWorkItems.Some? && read.file.maxWorkItems.value != 0 ==>
      r.config.maxWorkItems == read.file.maxWorkItems.value
    ensures read.Decoded? && ValueOr(read.file.maxWorkItems, 0) == 0 ==> r.config.maxWorkItems == DefaultMaxWorkItems
  {
    match read
    case NoConfigDir(e) => Loaded(DefaultConfig(), Some(e))
    case FileMissing => Loaded(DefaultConfig(), None)
    case Malformed(e) => Loaded(DefaultConfig(), Some(e))
    case Decoded(f) =>
      var c := AppConfig(ValueOr(f.defaultShowAll, false), ValueOr(f.enableNotifications, false),
                         ValueOr(f.maxWorkItems, 0));
      if c.maxWorkItems == 0 then Loaded(c.(maxWorkItems := DefaultMaxWorkItems), None) else Loaded(c, None)
  }

  /** `SaveConfigFile` writes all three keys. */
  function Encode(c: AppConfig): ConfigFile
  {
    ConfigFile(Some(c.defaultShowAll), Some(c.enableNotifications), Some(c.maxWorkItems))
  }

  /** Writing a configuration and reading it back gives it back, as long as
      its maximum is not zero; a zero maximum comes back as fifty. */
  lemma SaveLoadRoundTrip(c: AppConfig)
    ensures c.maxWorkItems != 0 ==> LoadConfigFile(Decoded(Encode(c))) == Loaded(c, None)
    ensures c.maxWorkItems == 0 ==> LoadConfigFile(Decoded(Encode(c))) == Loaded(c.(maxWorkItems := 50), None)
  {
  }

  /** Reading is idempotent: storing what was read and reading again gives
      the same configuration. */
  lemma LoadIdempotent(read: ReadOutcome)
    ensures LoadConfigFile(Decoded(Encode(LoadConfigFile(read).config))).config == LoadConfigFile(read).config
  {
    SaveLoadRoundTrip(LoadConfigFile(read).config);
  }

  /** A file written before `enable_notifications` existed turns
      notifications off, although the default turns them on: only the maximum
      is given its default when a key is missing. */
  lemma OlderFileDisablesNotifications(showAll: Option<bool>, maxItems: Option<int>)
    ensures DefaultConfig().enableNotifications
    ensures !LoadConfigFile(Decoded(ConfigFile(showAll, None, maxItems))).config.enableNotifications
  {
  }

  /** The maximum after saving the settings screen: the trimmed input when it
      parses (strconv.Atoi) as a positive integer, otherwise the current one. */
  function MaxItemsFromInput(input: string, current: int): (r: int)
    ensures r == current || r > 0
    ensures r != current ==> Atoi(Trim(input, IsGoSpace)) == Some(r)
    ensures Atoi(Trim(input, IsGoSpace)).Some? && Atoi(Trim(input, IsGoSpace)).value > 0 ==>
      r == Atoi(Trim(input, IsGoSpace)).value
  {
    var s := Trim(input, IsGoSpace);
    if s != "" then
      match Atoi(s)
      case Some(v) => if v > 0 then v else current
      case None => current
    else current
  }

  /** Typing a positive number, with blanks around it, and saving stores
      that number. */
  lemma TypedMaximumIsStored(w1: string, n: nat, w2: string, current: int)
    requires 0 < n <= MaxInt64
    requires forall i :: 0 <= i < |w1| ==> IsGoSpace(w1[i])
    requires forall i :: 0 <= i < |w2| ==> IsGoSpace(w2[i])
    ensures MaxItemsFromInput(w1 + NatToDigits(n) + w2, current) == n
  {
    var d := NatToDigits(n);
    assert !IsGoSpace(d[0]) && !IsGoSpace(d[|d| - 1]);
    TrimPadded(w1, d, w2, IsGoSpace);
    AtoiDigits(n);
  }

  /** Saving the settings screen without editing the maximum (which is shown
      as `%d` of the current value) keeps it. */
  lemma UneditedMaximumKept(current: int)
    requires MinInt64 <= current <= MaxInt64
    ensures MaxItemsFromInput(IntToString(current), current) == current
  {
    var s := IntToString(current);
    assert !IsGoSpace(s[0]) && !IsGoSpace(s[|s| - 1]);
    TrimOfTrimmed(s, IsGoSpace);
    if current >= 0 {
      AtoiDigits(current);
    } else {
      DigitsRoundTrip(-current);
      assert s[1..] == NatToDigits(-current);
    }
  }
}
