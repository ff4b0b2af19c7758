/** The theme slice: the mode read from browser storage at start-up, and the `setMode` reducer,
    which also writes the storage. Storage is a map from keys to strings. */
module ThemeSlice {
  import opened Wrappers

  datatype ThemeMode = SystemMode | Light | Dark

  function ModeText(m: ThemeMode): string {
    match m
    case SystemMode => "system"
    case Light => "light"
    case Dark => "dark"
  }

  const StorageKey := "tt_theme_mode"

  type Storage = map<string, string>

  /** `localStorage.getItem(key)` */
  function GetItem(st: Storage, key: string): Option<string> {
    if key in st then Some(st[key]) else None
  }

  /** `readInitialMode` given what storage holds: one of the three modes is taken as stored, any
      other value and a missing one give `system`. */
  function ReadInitialMode(stored: Option<string>): (m: ThemeMode)
    ensures stored.Some? && stored.value in ["light", "dark", "system"] ==> ModeText(m) == stored.value
    ensures stored.None? || stored.value !in ["light", "dark", "system"] ==> m == SystemMode
  {
    if stored == Some("light") then Light
    else if stored == Some("dark") then Dark
    else if stored == Some("system") then SystemMode
    else SystemMode
  }

  /** Mode texts are distinct, so a mode is recovered from its text. */
  lemma ReadsBackEveryMode(m: ThemeMode)
    ensures ReadInitialMode(Some(ModeText(m))) == m
  {
  }

  /** After `setMode(m)` has written storage, reading the initial mode from it gives `m`. */
  lemma PersistedModeIsRead(st: Storage, m: ThemeMode)
    ensures ReadInitialMode(GetItem(st[StorageKey := ModeText(m)], StorageKey)) == m
  {
    ReadsBackEveryMode(m);
  }

  /** The slice with the storage it reads and writes. */
  class ThemeStore {
    var mode: ThemeMode
    var storage: Storage

    /** `initialState`: the mode read from storage at start-up. */
    constructor(storage0: Storage)
      ensures mode == ReadInitialMode(GetItem(storage0, StorageKey)) && storage == storage0
    {
      mode := ReadInitialMode(GetItem(storage0, StorageKey));
      storage := storage0;
    }

    /** `setMode(m)`: sets the mode and stores its text under the key, leaving other keys alone. */
    method SetMode(m: ThemeMode)
      modifies this
      ensures mode == m && storage == old(storage)[StorageKey := ModeText(m)]
      ensures ReadInitialMode(GetItem(storage, StorageKey)) == mode
    {
      mode := m;
      storage := storage[StorageKey := ModeText(m)];
      PersistedModeIsRead(old(storage), m);
    }
  }
}
