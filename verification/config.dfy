/** Application settings: the built-in defaults, the merge of a loaded file
    over them, section/key access, and the two setters that validate their
    input. Every default section is a dict, so the settings are a map of
    sections to maps of scalar values. */
module Config {
  import opened Basics

  type Section = map<string, Value>
  type Settings = map<string, Section>

  const Defaults: Settings := map[
    "audio" := map[
      "input_device" := Null,
      "output_device" := Null,
      "enabled" := Bool(true),
      "use_filters" := Bool(true),
      "filter_type" := Str("voice"),
      "bandpass_low" := Int(300),
      "bandpass_high" := Int(3400),
      "use_agc" := Bool(true),
      "agc_target_level" := Num(-12.0),
      "agc_max_gain" := Num(12.0)],
    "codec" := map["default_profile" := Int(0x40)],
    "network" := map["announce_on_start" := Bool(true), "announce_period_minutes" := Int(5)],
    "ui" := map["window_width" := Int(620), "window_height" := Int(550),
                "last_remote_id" := Str(""), "display_name" := Str("")],
    "security" := map[]]

  /** A top-level value of the loaded file: a dict section, or anything
      `dict.update` cannot take. */
  datatype Loaded = Dict(entries: Section) | NotDict

  /** Merges a loaded object over the defaults: each default section takes
      the loaded keys on top of its own, sections the defaults do not know
      are dropped, and a default section loaded as a non-dict makes the
      merge fail. */
  function MergeDefaults(loaded: map<string, Loaded>): (r: Option<Settings>)
    ensures r.None? <==> exists s :: s in Defaults && s in loaded && loaded[s].NotDict?
    ensures r.Some? ==> r.value.Keys == Defaults.Keys
  {
    if exists s :: s in Defaults && s in loaded && loaded[s].NotDict? then None
    else Some(map s | s in Defaults :: if s in loaded then Defaults[s] + loaded[s].entries else Defaults[s])
  }

  /** Every default key survives the merge, and a loaded value wins over
      the default. */
  lemma MergeKeys(loaded: map<string, Loaded>, s: string, k: string)
    requires MergeDefaults(loaded).Some? && s in Defaults
    ensures var merged := MergeDefaults(loaded).value;
      && s in merged
      && (k in Defaults[s] ==> k in merged[s])
      && (s in loaded && k in loaded[s].entries ==> merged[s][k] == loaded[s].entries[k])
      && (k in Defaults[s] && !(s in loaded && k in loaded[s].entries) ==> merged[s][k] == Defaults[s][k])
      && (k in merged[s] ==> k in Defaults[s] || (s in loaded && k in loaded[s].entries))
  {
  }

  /** What reading the settings file produced. */
  datatype ConfigFile = Absent | Unreadable | NotObject | Object(sections: map<string, Loaded>)

  /** `load`: a readable object that merges replaces the settings; anything
      else falls back to the defaults. */
  function Load(file: ConfigFile): (r: Settings)
    ensures r.Keys == Defaults.Keys
    ensures !file.Object? ==> r == Defaults
    ensures file.Object? && MergeDefaults(file.sections).None? ==> r == Defaults
  {
    if file.Object? && MergeDefaults(file.sections).Some? then MergeDefaults(file.sections).value
    else Defaults
  }

  /** `get`: the value, or `default` when the section or the key is absent. */
  function Get(data: Settings, section: string, key: string, default: Value): (v: Value)
    ensures section in data && key in data[section] ==> v == data[section][key]
    ensures !(section in data && key in data[section]) ==> v == default
  {
    if section in data && key in data[section] then data[section][key] else default
  }

  /** `set`: creates the section when needed. */
  function Set(data: Settings, section: string, key: string, value: Value): (r: Settings)
    ensures r.Keys == data.Keys + {section}
    ensures r[section].Keys == (if section in data then data[section].Keys else {}) + {key}
  {
    data[section := (if section in data then data[section] else map[])[key := value]]
  }

  /** Reading back what was set yields it, and no other setting moves. */
  lemma GetAfterSet(data: Settings, section: string, key: string, value: Value, s: string, k: string, d: Value)
    ensures Get(Set(data, section, key, value), section, key, d) == value
    ensures (s, k) != (section, key) ==> Get(Set(data, section, key, value), s, k, d) == Get(data, s, k, d)
  {
  }

  /** `get_section`: a copy of the section, empty when absent. */
  function GetSection(data: Settings, section: string): (r: Section)
    ensures section in data ==> r == data[section]
    ensures section !in data ==> r == map[]
  {
    if section in data then data[section] else map[]
  }

  datatype ConfigError = InvalidFilterType(value: string) | InvalidBandpass(low: int, high: int)

  /** The `filter_type` setter: voice, music or none; anything else is
      refused and nothing changes. */
  function SetFilterType(data: Settings, value: string): (r: Result<Settings, ConfigError>)
    ensures r.Ok? <==> value in ["voice", "music", "none"]
    ensures r.Ok? ==> Get(r.value, "audio", "filter_type", Null) == Str(value)
    ensures r.Ok? ==> forall s, k :: (s, k) != ("audio", "filter_type") ==> Get(r.value, s, k, Null) == Get(data, s, k, Null)
  {
    if value !in ["voice", "music", "none"] then Err(InvalidFilterType(value))
    else Ok(Set(data, "audio", "filter_type", Str(value)))
  }

  /** The `bandpass_range` setter: refuses `low >= high`; otherwise sets
      both bounds and nothing else. */
  function SetBandpassRange(data: Settings, low: int, high: int): (r: Result<Settings, ConfigError>)
    ensures r.Err? <==> low >= high
    ensures r.Ok? ==> Get(r.value, "audio", "bandpass_low", Null) == Int(low)
    ensures r.Ok? ==> Get(r.value, "audio", "bandpass_high", Null) == Int(high)
    ensures r.Ok? ==> forall s, k :: s != "audio" || (k != "bandpass_low" && k != "bandpass_high") ==>
      Get(r.value, s, k, Null) == Get(data, s, k, Null)
  {
    if low >= high then Err(InvalidBandpass(low, high))
    else Ok(Set(Set(data, "audio", "bandpass_low", Int(low)), "audio", "bandpass_high", Int(high)))
  }

  /** A fresh install reads the documented defaults. */
  lemma DefaultsReadBack()
    ensures Get(Load(Absent), "audio", "filter_type", Null) == Str("voice")
    ensures Get(Load(Absent), "audio", "bandpass_low", Null) == Int(300)
    ensures Get(Load(Absent), "codec", "default_profile", Null) == Int(0x40)
    ensures GetSection(Load(Absent), "security") == map[]
    ensures Get(Load(Absent), "nosuch", "key", Int(7)) == Int(7)
  {
  }
}
