/** The settings page: the preferences record, its defaults, the single-field
    update the controls perform, and saving and loading the record under one
    storage key. */
module Settings {

  import opened Wrappers

  /** `aiTone`: the four tones the select offers. */
  datatype Tone = Calm | Motivational | Friendly | Professional

  function ToneName(t: Tone): string {
    match t
      case Calm => "calm"
      case Motivational => "motivational"
      case Friendly => "friendly"
      case Professional => "professional"
  }

  /** `theme`: light, dark or follow the system. */
  datatype Theme = Light | Dark | System

  /** `NeuroNestSettings`. */
  datatype Preferences = Preferences(
    aiTone: Tone,
    enableNotifications: bool,
    enableCloudBackup: bool,
    theme: Theme)

  /** `defaultSettings`. */
  const Defaults: Preferences := Preferences(Friendly, true, false, System)

  /** The defaults: a friendly tone, notifications on, cloud backup off, and
      the system theme. */
  lemma DefaultValues()
    ensures ToneName(Defaults.aiTone) == "friendly"
    ensures Defaults.enableNotifications && !Defaults.enableCloudBackup
    ensures Defaults.theme == System
  {
  }

  /** One control's change: the key it sets and the new value. */
  datatype SettingChange =
    | SetTone(tone: Tone)
    | SetNotifications(on: bool)
    | SetCloudBackup(on: bool)
    | SetTheme(theme: Theme)

  /** `handleSettingChange`: the named field takes the new value and the other
      three keep theirs. */
  function Change(s: Preferences, c: SettingChange): (r: Preferences)
    ensures r.aiTone == (if c.SetTone? then c.tone else s.aiTone)
    ensures r.enableNotifications == (if c.SetNotifications? then c.on else s.enableNotifications)
    ensures r.enableCloudBackup == (if c.SetCloudBackup? then c.on else s.enableCloudBackup)
    ensures r.theme == (if c.SetTheme? then c.theme else s.theme)
  {
    match c
      case SetTone(t) => s.(aiTone := t)
      case SetNotifications(b) => s.(enableNotifications := b)
      case SetCloudBackup(b) => s.(enableCloudBackup := b)
      case SetTheme(t) => s.(theme := t)
  }

  /** The key a change writes. */
  function Key(c: SettingChange): nat {
    match c
      case SetTone(_) => 0
      case SetNotifications(_) => 1
      case SetCloudBackup(_) => 2
      case SetTheme(_) => 3
  }

  /** Two changes of the same key: the later one wins. */
  lemma ChangeSameKey(s: Preferences, c: SettingChange, d: SettingChange)
    requires Key(c) == Key(d)
    ensures Change(Change(s, c), d) == Change(s, d)
  {
  }

  /** Changes of different keys do not interfere, so their order is irrelevant. */
  lemma ChangesCommute(s: Preferences, c: SettingChange, d: SettingChange)
    requires Key(c) != Key(d)
    ensures Change(Change(s, c), d) == Change(Change(s, d), c)
  {
  }

  /** Setting a field to the value it already has changes nothing. */
  lemma ChangeToCurrent(s: Preferences)
    ensures Change(s, SetTone(s.aiTone)) == s
    ensures Change(s, SetNotifications(s.enableNotifications)) == s
    ensures Change(s, SetCloudBackup(s.enableCloudBackup)) == s
    ensures Change(s, SetTheme(s.theme)) == s
  {
  }

  /** Every record is reachable from the defaults by setting its four fields. */
  lemma ReachableFromDefaults(s: Preferences)
    ensures Change(Change(Change(Change(Defaults, SetTone(s.aiTone)),
      SetNotifications(s.enableNotifications)), SetCloudBackup(s.enableCloudBackup)),
      SetTheme(s.theme)) == s
  {
  }

  // ----- persistence ------------------------------------------------------------

  /** The browser's local storage, restricted to the records this model reads;
      the record is stored whole under one key. */
  type Storage = map<string, Preferences>

  const SettingsKey: string := "neuroNestSettings"

  /** `handleSaveSettings`: writes the current record under the key. */
  function Save(store: Storage, s: Preferences): (r: Storage)
    ensures SettingsKey in r && r[SettingsKey] == s
    ensures forall k :: k in store && k != SettingsKey ==> k in r && r[k] == store[k]
    ensures r.Keys == store.Keys + {SettingsKey}
  {
    store[SettingsKey := s]
  }

  /** The mount effect: a stored record replaces the page's record wholesale
      (no field is merged from the defaults); without one the page keeps what it
      has. */
  function Load(current: Preferences, store: Storage): (r: Preferences)
    ensures SettingsKey in store ==> r == store[SettingsKey]
    ensures SettingsKey !in store ==> r == current
  {
    if SettingsKey in store then store[SettingsKey] else current
  }

  /** The page's record once the mount effect has run: the stored record if
      there is one, the defaults otherwise. */
  function Mount(store: Storage): (r: Preferences)
    ensures SettingsKey in store ==> r == store[SettingsKey]
    ensures SettingsKey !in store ==> r == Defaults
  {
    Load(Defaults, store)
  }

  /** What is saved is what the next visit loads. */
  lemma SaveLoad(store: Storage, s: Preferences, current: Preferences)
    ensures Load(current, Save(store, s)) == s
  {
  }

  /** Saving what was loaded leaves the stored record as it was. */
  lemma LoadSave(store: Storage)
    requires SettingsKey in store
    ensures Save(store, Load(Defaults, store)) == store
  {
  }

  /** Without a stored record the page shows the defaults. */
  lemma FreshMountShowsDefaults(store: Storage)
    requires SettingsKey !in store
    ensures Mount(store) == Defaults
  {
  }

  /** The tone field of the stored record, as another page reads it. */
  function StoredTone(store: Storage): (r: Option<string>)
    ensures r.Some? <==> SettingsKey in store
  {
    if SettingsKey in store then Some(ToneName(store[SettingsKey].aiTone)) else None
  }

  /** The four tone names are distinct and none is empty. */
  lemma ToneNamesDistinct(a: Tone, b: Tone)
    ensures ToneName(a) != []
    ensures a != b ==> ToneName(a) != ToneName(b)
  {
  }
}
