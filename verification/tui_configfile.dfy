/** The settings screen (`updateConfigFile`): two on/off options and the
    maximum number of items, saved to the settings file with ctrl+s. Writing
    the file is outside the model: its outcome (an error or none) is an input. */
module TuiConfigFile {
  import opened Common
  import opened TuiModel
  import opened Settings

  /** The maximum's text field is the third option. */
  const MaxItemsOption: int := 2

  const SavedMessage: string := "Configuration saved successfully"
  const SaveErrorPrefix: string := "Error saving config: "

  /** tab/down and shift+tab/up: the focus moves round the three options;
      the text field has the keyboard focus exactly when it is current. */
  function SettingsFocus(m: Model, forward: bool): (r: Model)
    requires Valid(m) && m.view == ConfigFileView
    ensures Valid(r) && r == m.(settings := r.settings)
    ensures r.settings.focus == if forward then NextIndex(m.settings.focus, 3) else PrevIndex(m.settings.focus, 3)
    ensures r.settings.maxItems == m.settings.maxItems.(focused := r.settings.focus == MaxItemsOption)
    ensures r.settings.config == m.settings.config && r.settings.message == m.settings.message
  {
    var s := m.settings;
    var f := if forward then NextIndex(s.focus, 3) else PrevIndex(s.focus, 3);
    m.(settings := s.(focus := f, maxItems := s.maxItems.(focused := f == MaxItemsOption)))
  }

  /** enter or space on an on/off option flips it. */
  function ToggleOption(m: Model): (r: Model)
    requires Valid(m) && m.view == ConfigFileView && m.settings.focus < MaxItemsOption
    ensures Valid(r) && r == m.(settings := r.settings)
    ensures r.settings == m.settings.(config := r.settings.config)
    ensures m.settings.focus == 0 ==>
      r.settings.config == m.settings.config.(defaultShowAll := !m.settings.config.defaultShowAll)
    ensures m.settings.focus == 1 ==>
      r.settings.config == m.settings.config.(enableNotifications := !m.settings.config.enableNotifications)
  {
    var c := m.settings.config;
    var c' := if m.settings.focus == 0 then c.(defaultShowAll := !c.defaultShowAll)
              else c.(enableNotifications := !c.enableNotifications);
    m.(settings := m.settings.(config := c'))
  }

  /** `saveConfigFile`: takes the typed maximum when it is a positive number,
      writes the settings, and on success applies the show-all default to
      the board at once. `saveError` is the outcome of writing the file. */
  function SaveSettings(m: Model, saveError: Option<string>): (r: Model)
    requires Valid(m) && m.view == ConfigFileView
    ensures Valid(r) && r == m.(showAll := r.showAll, settings := r.settings)
    ensures r.settings == m.settings.(config := r.settings.config, message := r.settings.message)
    ensures r.settings.config ==
      m.settings.config.(maxWorkItems := MaxItemsFromInput(m.settings.maxItems.value, m.settings.config.maxWorkItems))
    ensures saveError.None? ==> r.settings.message == SavedMessage && r.showAll == r.settings.config.defaultShowAll
    ensures saveError.Some? ==> r.settings.message == SaveErrorPrefix + saveError.value && r.showAll == m.showAll
  {
    var s := m.settings;
    var config := s.config.(maxWorkItems := MaxItemsFromInput(s.maxItems.value, s.config.maxWorkItems));
    match saveError
    case Some(e) => m.(settings := s.(config := config, message := SaveErrorPrefix + e))
    case None => m.(showAll := config.defaultShowAll, settings := s.(config := config, message := SavedMessage))
  }

  /** Keys that fall through: only the maximum's field, when current, takes them. */
  function EditSettings(m: Model, key: string): (r: Model)
    requires Valid(m) && m.view == ConfigFileView
    ensures Valid(r) && r == m.(settings := r.settings)
    ensures r.settings == m.settings.(maxItems := r.settings.maxItems)
    ensures r.settings.maxItems ==
      if m.settings.focus == MaxItemsOption then EditInput(m.settings.maxItems, key) else m.settings.maxItems
  {
    if m.settings.focus == MaxItemsOption then
      m.(settings := m.settings.(maxItems := EditInput(m.settings.maxItems, key)))
    else m
  }

  /** `updateConfigFile` for a key. */
  function SettingsKey(m: Model, key: string, saveError: Option<string>): (r: Next)
    requires Valid(m) && m.view == ConfigFileView
    ensures Valid(r.model) && r.cmds == []
    ensures r.model.view == (if key == "esc" then ConfigView else ConfigFileView)
    // the board's filter changes only through a successful save
    ensures r.model.showAll != m.showAll ==> key == "ctrl+s" && saveError.None?
    ensures key == "ctrl+s" ==> r.model == SaveSettings(m, saveError)
    // the settings screen touches nothing but its own state (and the filter on saving)
    ensures r.model == m.(view := r.model.view, showAll := r.model.showAll, settings := r.model.settings)
    // the settings held change only by toggling or saving
    ensures r.model.settings.config != m.settings.config ==>
      key == "ctrl+s" || ((key == "enter" || key == " ") && m.settings.focus < MaxItemsOption)
  {
    if key == "esc" then Next(m.(view := ConfigView, settings := m.settings.(message := "")), [])
    else if key == "tab" || key == "down" then Next(SettingsFocus(m, true), [])
    else if key == "shift+tab" || key == "up" then Next(SettingsFocus(m, false), [])
    else if (key == "enter" || key == " ") && m.settings.focus < MaxItemsOption then Next(ToggleOption(m), [])
    else if key == "ctrl+s" then Next(SaveSettings(m, saveError), [])
    else Next(EditSettings(m, key), [])
  }

  /** Saving without editing the maximum keeps it. */
  lemma SaveKeepsUneditedMaximum(m: Model, saveError: Option<string>)
    requires Valid(m) && m.view == ConfigFileView
    requires m.settings.maxItems.value == IntToString(m.settings.config.maxWorkItems)
    requires MinInt64 <= m.settings.config.maxWorkItems <= MaxInt64
    ensures SaveSettings(m, saveError).settings.config == m.settings.config
  {
    UneditedMaximumKept(m.settings.config.maxWorkItems);
  }

  /** A successful save writes what the screen holds, and reading the file
      back gives the same settings (the maximum is never zero after saving
      from a loaded configuration). */
  lemma SavedSettingsReadBack(m: Model)
    requires Valid(m) && m.view == ConfigFileView && m.settings.config.maxWorkItems != 0
    ensures var saved := SaveSettings(m, None).settings.config;
      LoadConfigFile(Decoded(Encode(saved))) == Loaded(saved, None)
  {
    SaveLoadRoundTrip(SaveSettings(m, None).settings.config);
  }
}
