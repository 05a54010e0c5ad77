/** The credentials screen (`updateConfig`): six fields (organization,
    project, team, area path, access token, user name), connecting once all
    six are filled in, clearing the stored credentials, and the way to the
    settings screen. The keychain itself is outside the model: whether saving
    to it succeeded is an input. */
module TuiConfig {
  import opened Common
  import opened Client
  import opened TuiModel

  const CredentialFieldCount: int := 6

  const KeychainSavedMessage: string := "Credentials saved to keychain"
  const KeychainFailedMessage: string := "Warning: Could not save to keychain"
  const KeychainClearedMessage: string := "Credentials cleared from keychain"

  /** Every field has some text. */
  predicate AllFilled(inputs: seq<TextInput>)
  {
    forall i :: 0 <= i < |inputs| ==> inputs[i].value != ""
  }

  /** The client `NewClient` builds from the first five fields. */
  function ClientOf(v: seq<string>): (c: Client)
    requires |v| >= 5
    ensures c.organization == v[0] && c.project == v[1] && c.team == v[2]
    ensures c.areaPath == v[3] && c.pat == v[4]
  {
    Client(v[0], v[1], v[2], v[3], v[4])
  }

  /** tab/down and shift+tab/up: the focus moves round the six fields. */
  function ConfigFocus(m: Model, forward: bool): (r: Model)
    requires Valid(m) && m.view == ConfigView
    ensures Valid(r) && r == m.(creds := r.creds)
    ensures Values(r.creds.inputs) == Values(m.creds.inputs)
    ensures r.creds.focus == if forward then NextIndex(m.creds.focus, 6) else PrevIndex(m.creds.focus, 6)
    ensures r.creds.keychainLoaded == m.creds.keychainLoaded && r.creds.keychainMessage == m.creds.keychainMessage
  {
    var c := m.creds;
    var f := if forward then NextIndex(c.focus, CredentialFieldCount) else PrevIndex(c.focus, CredentialFieldCount);
    m.(creds := c.(focus := f, inputs := FocusOnly(c.inputs, f)))
  }

  /** enter with all six fields filled in: builds the client, takes the user
      name, saves the credentials to the keychain and tests the connection.
      The screen stays until the test answers. */
  function SubmitCredentials(m: Model, keychainSaved: bool): (r: Next)
    requires Valid(m) && m.view == ConfigView && AllFilled(m.creds.inputs)
    ensures Valid(r.model) && r.model.view == ConfigView
    ensures var v := Values(m.creds.inputs);
      && r.model.client == Some(ClientOf(v)) && r.model.username == v[5]
      && r.cmds == [Connect(ClientOf(v))]
    ensures r.model.loading
    ensures r.model.creds.keychainMessage == if keychainSaved then KeychainSavedMessage else KeychainFailedMessage
    ensures r.model.creds == m.creds.(keychainMessage := r.model.creds.keychainMessage)
    ensures r.model == m.(client := r.model.client, username := r.model.username, loading := true, creds := r.model.creds)
  {
    var v := Values(m.creds.inputs);
    var c := ClientOf(v);
    var message := if keychainSaved then KeychainSavedMessage else KeychainFailedMessage;
    Next(m.(client := Some(c), username := v[5], loading := true, creds := m.creds.(keychainMessage := message)),
         [Connect(c)])
  }

  /** ctrl+d: empties every field and forgets that the keychain held credentials. */
  function ClearCredentials(m: Model): (r: Model)
    requires Valid(m) && m.view == ConfigView
    ensures Valid(r) && r == m.(creds := r.creds)
    ensures Values(r.creds.inputs) == Blank(6) && r.creds.focus == m.creds.focus
    ensures !r.creds.keychainLoaded && r.creds.keychainMessage == KeychainClearedMessage
  {
    var inputs := WithValues(m.creds.inputs, Blank(CredentialFieldCount));
    m.(creds := m.creds.(inputs := inputs, keychainLoaded := false, keychainMessage := KeychainClearedMessage))
  }

  /** ctrl+f: the settings screen, on its first option, without a message. */
  function OpenSettings(m: Model): (r: Model)
    requires Valid(m) && m.view == ConfigView
    ensures Valid(r) && r.view == ConfigFileView
    ensures r == m.(view := ConfigFileView, settings := r.settings)
    ensures r.settings == m.settings.(focus := 0, message := "")
  {
    m.(view := ConfigFileView, settings := m.settings.(focus := 0, message := ""))
  }

  /** Every other key goes to the focused field. */
  function EditConfig(m: Model, key: string): (r: Model)
    requires Valid(m) && m.view == ConfigView
    ensures Valid(r) && r == m.(creds := r.creds)
    ensures r.creds == m.creds.(inputs := r.creds.inputs)
    ensures |r.creds.inputs| == 6
    ensures forall i :: 0 <= i < 6 ==> r.creds.inputs[i] == EditInput(m.creds.inputs[i], key)
  {
    TypeIntoKeepsFocus(m.creds.inputs, key, m.creds.focus);
    m.(creds := m.creds.(inputs := TypeInto(m.creds.inputs, key)))
  }

  /** `updateConfig` for a key. */
  function ConfigKey(m: Model, key: string, keychainSaved: bool): (r: Next)
    requires Valid(m) && m.view == ConfigView
    ensures Valid(r.model)
    ensures r.model.view == (if key == "ctrl+f" then ConfigFileView else ConfigView)
    // the connection test is sent iff enter is pressed with every field filled in
    ensures r.cmds != [] <==> key == "enter" && AllFilled(m.creds.inputs)
    ensures r.cmds != [] ==> r == SubmitCredentials(m, keychainSaved)
    // no other key builds a client
    ensures r.cmds == [] ==> r.model.client == m.client && r.model.username == m.username
  {
    if key == "tab" || key == "down" then Next(ConfigFocus(m, true), [])
    else if key == "shift+tab" || key == "up" then Next(ConfigFocus(m, false), [])
    else if key == "enter" && AllFilled(m.creds.inputs) then SubmitCredentials(m, keychainSaved)
    else if key == "ctrl+d" then Next(ClearCredentials(m), [])
    else if key == "ctrl+f" then Next(OpenSettings(m), [])
    else Next(EditConfig(m, key), [])
  }

  /** Whether the keychain accepted the credentials changes nothing but the
      message shown: the same client is built and the same test is sent. */
  lemma KeychainOnlyAffectsMessage(m: Model, key: string)
    requires Valid(m) && m.view == ConfigView
    ensures var a := ConfigKey(m, key, true);
      var b := ConfigKey(m, key, false);
      && a.cmds == b.cmds
      && a.model.creds.(keychainMessage := "") == b.model.creds.(keychainMessage := "")
      && a.model.(creds := b.model.creds) == b.model
  {
  }
}
