/**
 * The settings of a profile: a JSON object with the library root and one
 * object per section ("ui", "server"). Lookups answer None for an absent key,
 * writes of an unchanged value do nothing, and missing entries are filled
 * with defaults. Every `save()` is counted; the file itself is not modelled.
 */
module Config {
  import opened Wrappers
  import opened Json
  import Paths

  const CONFIG_UI := "ui"
  const CONFIG_SERVER := "server"
  const MAIN_ROOT := "root"

  const UI_METATAG := "default-metatag"
  const UI_RANDOMIZE := "randomize"
  const SERVER_PORT := "port"
  const DEFAULT_PORT := 44659

  type Settings = map<string, Json>

  /** `settings[section]` exists and is an object, so keys can be looked up in it. */
  predicate IsSection(settings: Settings, section: string)
  {
    section in settings && settings[section].JObj?
  }

  /** `getConfig(key)` in a section: the stored value, or None when the key is absent. */
  function GetConfig(settings: Settings, section: string, key: string): Json
    requires IsSection(settings, section)
  {
    var fields := settings[section].fields;
    if key in fields then fields[key] else JNull
  }

  /**
   * `setConfig(key, value)`: the new settings and whether they were saved.
   * A value equal to the current one (None for an absent key) changes
   * nothing and is not saved; afterwards `getConfig(key)` answers `value`
   * and every other key and entry is as before.
   */
  function SetConfig(settings: Settings, section: string, key: string, value: Json): (r: (Settings, bool))
    requires IsSection(settings, section)
    ensures r.1 <==> value != GetConfig(settings, section, key)
    ensures !r.1 ==> r.0 == settings
    ensures IsSection(r.0, section) && r.0.Keys == settings.Keys
    ensures GetConfig(r.0, section, key) == value
    ensures forall k :: k != key ==> GetConfig(r.0, section, k) == GetConfig(settings, section, k)
    ensures forall e :: e in settings && e != section ==> r.0[e] == settings[e]
  {
    if value == GetConfig(settings, section, key) then (settings, false)
    else (settings[section := JObj(settings[section].fields[key := value])], true)
  }

  /** What `_check` leaves: the entries present are kept, a missing root, ui or server entry gets its default. */
  function Checked(settings: Settings, home: string): (r: Settings)
    ensures r.Keys == settings.Keys + {MAIN_ROOT, CONFIG_UI, CONFIG_SERVER}
    ensures forall e :: e in settings ==> r[e] == settings[e]
    ensures MAIN_ROOT !in settings ==> r[MAIN_ROOT] == JStr(Paths.Join(home, "TagManager/"))
    ensures CONFIG_UI !in settings ==> r[CONFIG_UI] == JObj(map[])
    ensures CONFIG_SERVER !in settings ==> r[CONFIG_SERVER] == JObj(map[])
  {
    var s1 := if MAIN_ROOT in settings then settings else settings[MAIN_ROOT := JStr(Paths.Join(home, "TagManager/"))];
    var s2 := if CONFIG_UI in s1 then s1 else s1[CONFIG_UI := JObj(map[])];
    if CONFIG_SERVER in s2 then s2 else s2[CONFIG_SERVER := JObj(map[])]
  }

  /** `_check` saves only when it added something. */
  predicate CheckEdits(settings: Settings)
  {
    MAIN_ROOT !in settings || CONFIG_UI !in settings || CONFIG_SERVER !in settings
  }

  /** Checking checked settings changes nothing and saves nothing. */
  lemma CheckIdempotent(settings: Settings, home: string)
    ensures !CheckEdits(Checked(settings, home))
    ensures Checked(Checked(settings, home), home) == Checked(settings, home)
  {
    var once := Checked(settings, home);
    assert Checked(once, home).Keys == once.Keys;
  }

  /** `_loadSettings`: the file's object, or an empty map when there is no file. */
  function LoadSettings(file: Option<Settings>): (r: Settings)
    ensures file.None? ==> r == map[]
    ensures file.Some? ==> r == file.value
  {
    file.GetOr(map[])
  }

  /** `getProfileName`: the last component of the profile folder. */
  function ProfileName(profileFolder: string): (r: string)
    ensures forall k :: 0 <= k < |r| ==> r[k] != '/'
    ensures |r| <= |profileFolder| && profileFolder[|profileFolder| - |r|..] == r
  {
    Paths.Basename(profileFolder)
  }

  /** `getOverridesFolder`: `overrides/` inside the profile folder. */
  function OverridesFolder(profileFolder: string): (r: string)
  {
    Paths.Join(profileFolder, "overrides/")
  }

  /** The overrides folder lies under the profile folder and ends in `overrides/`. */
  lemma OverridesUnderProfile(profileFolder: string)
    ensures profileFolder <= OverridesFolder(profileFolder)
    ensures var r := OverridesFolder(profileFolder); |r| >= 10 && r[|r| - 10..] == "overrides/"
  {
    Paths.JoinRelative(profileFolder, "overrides/");
  }

  /** `getMoverCustomPatternKeysEvaluator`: the custom-keys module inside the profile folder. */
  function MoverKeysModule(profileFolder: string): string
  {
    Paths.Join(profileFolder, "modules/moverKeys.py")
  }

  /** `getMoverDefaultValues`: the default-values module inside the profile folder. */
  function MoverDefaultsModule(profileFolder: string): string
  {
    Paths.Join(profileFolder, "modules/moverDefaults.py")
  }

  /** The custom-keys module lies under the profile folder and keeps its file name. */
  lemma MoverKeysInProfile(profileFolder: string)
    ensures profileFolder <= MoverKeysModule(profileFolder)
    ensures Paths.Basename(MoverKeysModule(profileFolder)) == "moverKeys.py"
  {
    assert "modules/moverKeys.py" == "modules/" + "moverKeys.py";
    InModulesFolder(profileFolder, "moverKeys.py");
  }

  /** The default-values module lies under the profile folder and keeps its file name. */
  lemma MoverDefaultsInProfile(profileFolder: string)
    ensures profileFolder <= MoverDefaultsModule(profileFolder)
    ensures Paths.Basename(MoverDefaultsModule(profileFolder)) == "moverDefaults.py"
  {
    assert "modules/moverDefaults.py" == "modules/" + "moverDefaults.py";
    InModulesFolder(profileFolder, "moverDefaults.py");
  }

  /** A file of the profile's `modules/` folder: the profile is a prefix, the file name the basename. */
  lemma InModulesFolder(profileFolder: string, name: string)
    requires name != [] && forall k :: 0 <= k < |name| ==> name[k] != '/'
    ensures profileFolder <= Paths.Join(profileFolder, "modules/" + name)
    ensures Paths.Basename(Paths.Join(profileFolder, "modules/" + name)) == name
  {
    var rel := "modules/" + name;
    var p := Paths.Join(profileFolder, rel);
    Paths.JoinRelative(profileFolder, rel);
    assert p[|p| - |rel|..] == rel;
    assert p[|p| - |name| - 1] == rel[7] == '/';
    assert p[|p| - |name|..] == rel[8..] == name;
    Paths.BasenameAfterSlash(p, name);
  }

  /** The settings both sections of which are objects. */
  predicate WellShaped(settings: Settings)
  {
    IsSection(settings, CONFIG_UI) && IsSection(settings, CONFIG_SERVER)
  }

  class ConfigManager {
    const profileFolder: string
    var settings: Settings
    /** How many times the settings were saved. */
    var saves: nat

    ghost predicate Valid()
      reads this
    {
      WellShaped(settings)
    }

    /**
     * `setup(profileFolder)` followed by the child configurations' sanity
     * checks: load the file (if any), fill in defaults, and give the server a
     * port when it has none.
     */
    constructor (profileFolder: string, file: Option<Settings>, home: string)
      requires file.Some? && CONFIG_UI in file.value ==> file.value[CONFIG_UI].JObj?
      requires file.Some? && CONFIG_SERVER in file.value ==> file.value[CONFIG_SERVER].JObj?
      ensures Valid() && this.profileFolder == profileFolder
      ensures var checked := Checked(LoadSettings(file), home);
        && settings.Keys == checked.Keys
        && (forall e :: e in checked && e != CONFIG_SERVER ==> settings[e] == checked[e])
        && GetConfig(settings, CONFIG_SERVER, SERVER_PORT) ==
             (if GetConfig(checked, CONFIG_SERVER, SERVER_PORT) == JNull then JInt(DEFAULT_PORT) else GetConfig(checked, CONFIG_SERVER, SERVER_PORT))
    {
      this.profileFolder := profileFolder;
      settings := LoadSettings(file);
      saves := 0;
      new;
      Check(home);
      ServerSanityCheck();
    }

    /** `getConfig(key)` in a section. */
    function Get(section: string, key: string): Json
      requires Valid() && section in {CONFIG_UI, CONFIG_SERVER}
      reads this
    {
      GetConfig(settings, section, key)
    }

    /** `getRoot`: the library root; a KeyError when the entry is missing. */
    function Root(): (r: Result<Json>)
      reads this
      ensures r.Ok? <==> MAIN_ROOT in settings
      ensures r.Ok? ==> r.value == settings[MAIN_ROOT]
    {
      if MAIN_ROOT in settings then Ok(settings[MAIN_ROOT]) else Err(KeyError(MAIN_ROOT))
    }

    /** `setConfig(key, value)` in a section: stores and saves unless the value is the current one. */
    method Set(section: string, key: string, value: Json)
      requires Valid() && section in {CONFIG_UI, CONFIG_SERVER}
      modifies this
      ensures Valid()
      ensures settings == SetConfig(old(settings), section, key, value).0
      ensures saves == old(saves) + if SetConfig(old(settings), section, key, value).1 then 1 else 0
    {
      var oldValue := GetConfig(settings, section, key);
      if value == oldValue {
        return;
      }
      settings := settings[section := JObj(settings[section].fields[key := value])];
      saves := saves + 1;
    }

    /** `_check`: adds the missing root, ui and server entries one by one and saves once if any was added. */
    method Check(home: string)
      modifies this
      ensures settings == Checked(old(settings), home)
      ensures saves == old(saves) + if CheckEdits(old(settings)) then 1 else 0
    {
      var edited := false;
      if MAIN_ROOT !in settings {
        settings := settings[MAIN_ROOT := JStr(Paths.Join(home, "TagManager/"))];
        edited := true;
      }
      if CONFIG_UI !in settings {
        settings := settings[CONFIG_UI := JObj(map[])];
        edited := true;
      }
      if CONFIG_SERVER !in settings {
        settings := settings[CONFIG_SERVER := JObj(map[])];
        edited := true;
      }
      if edited {
        saves := saves + 1;
      }
    }

    /**
     * `ServerSettings._sanityCheck`: an unset port becomes 44659 (saved by
     * `setPort` and once more explicitly); a set port is kept.
     */
    method ServerSanityCheck()
      requires Valid()
      modifies this
      ensures Valid() && settings.Keys == old(settings).Keys
      ensures forall e :: e in settings && e != CONFIG_SERVER ==> settings[e] == old(settings)[e]
      ensures forall k :: k != SERVER_PORT ==> GetConfig(settings, CONFIG_SERVER, k) == GetConfig(old(settings), CONFIG_SERVER, k)
      ensures old(GetConfig(settings, CONFIG_SERVER, SERVER_PORT)) == JNull ==>
        GetConfig(settings, CONFIG_SERVER, SERVER_PORT) == JInt(DEFAULT_PORT) && saves == old(saves) + 2
      ensures old(GetConfig(settings, CONFIG_SERVER, SERVER_PORT)) != JNull ==> settings == old(settings) && saves == old(saves)
    {
      var port := Get(CONFIG_SERVER, SERVER_PORT);
      if port == JNull {
        Set(CONFIG_SERVER, SERVER_PORT, JInt(DEFAULT_PORT));
        saves := saves + 1;
      }
    }
  }
}
