/** The application logger's record filter and its level setting, read from
    the settings store. Handlers and formatting are outside the model. */
module AppLogger {
  import opened Wrappers
  import opened Text
  import opened Config

  const Debug := 10
  const Info := 20
  const Warning := 30
  const Error := 40
  const Critical := 50

  /** `ComponentFilter.filter`. `conf` is the settings store, `None` when it
      could not be imported; `component` is the record's component, where
      `None` and the empty name both mean "no component". */
  function Passes(conf: Option<Settings>, level: int, component: Option<string>): (pass: bool)
    ensures conf.None? ==> pass
    ensures conf.Some? && !GetBool(conf.value, "logging_enabled", false) ==> (pass <==> level >= Error)
    ensures conf.Some? && GetBool(conf.value, "logging_enabled", false) ==>
      (pass <==> component.None? || component.value == []
                 || GetBool(conf.value, "logging_" + component.value, true) || level >= Warning)
  {
    if conf.None? then true
    else if !SafeBool(Get(conf.value, "logging_enabled", VBool(false))) then level >= Error
    else if component.None? || component.value == [] then true
    else if SafeBool(Get(conf.value, "logging_" + component.value, VBool(true))) then true
    else level >= Warning
  }

  /** A record that passes lets every record of the same component with a
      higher level pass too. */
  lemma PassesMonotone(conf: Option<Settings>, level: int, higher: int, component: Option<string>)
    requires level <= higher && Passes(conf, level, component)
    ensures Passes(conf, higher, component)
  {
  }

  /** Errors always pass, and with the default settings (logging off) only
      errors do. */
  lemma ErrorsAlwaysPass(conf: Option<Settings>, level: int, component: Option<string>)
    requires level >= Error
    ensures Passes(conf, level, component)
    ensures Passes(Some(map[]), level, component)
    ensures !Passes(Some(map[]), Warning, component)
  {
  }

  /** The level names the logging module defines as attributes. */
  const LevelNames: set<string> := {"NOTSET", "DEBUG", "INFO", "WARNING", "WARN", "ERROR", "CRITICAL", "FATAL"}

  /** The upper-case attributes of the logging module that are not levels:
      the default format text and the table of format styles. */
  const OtherAttributes: set<string> := {"BASIC_FORMAT", "_STYLES"}

  /** `getattr(logging, name, logging.WARNING)` followed by `setLevel`: a level
      name gives its level, a name the module does not define gives WARNING,
      and a module attribute that is not a level makes `setLevel` raise,
      which is `None` here. */
  function LevelOf(name: string): (level: Option<int>)
    ensures level.None? <==> name in OtherAttributes
    ensures name !in LevelNames && name !in OtherAttributes ==> level == Some(Warning)
    ensures level.Some? ==> level.value in {0, Debug, Info, Warning, Error, Critical}
  {
    if name == "NOTSET" then Some(0)
    else if name == "DEBUG" then Some(Debug)
    else if name == "INFO" then Some(Info)
    else if name == "WARNING" || name == "WARN" then Some(Warning)
    else if name == "ERROR" then Some(Error)
    else if name == "CRITICAL" || name == "FATAL" then Some(Critical)
    else if name in OtherAttributes then None
    else Some(Warning)
  }

  /** The level `configure_from_config` sets: the stored level name upper-
      cased, WARNING without settings or for an unknown name, and `None` when
      `setLevel` raises. A stored value that is not text never prints as an
      attribute name of the logging module. */
  function ConfiguredLevel(conf: Option<Settings>): (level: Option<int>)
    ensures conf.None? ==> level == Some(Warning)
    ensures conf.Some? && "logging_level" !in conf.value ==> level == Some(Warning)
    ensures conf.Some? && "logging_level" in conf.value && !conf.value["logging_level"].VText? ==> level == Some(Warning)
    ensures conf.Some? && "logging_level" in conf.value && conf.value["logging_level"].VText? ==>
      level == LevelOf(Upper(conf.value["logging_level"].text))
  {
    if conf.None? then Some(Warning)
    else match Get(conf.value, "logging_level", VText("WARNING"))
      case VText(t) => LevelOf(Upper(t))
      case _ => Some(Warning)
  }

  /** The stored name is read without regard to case: a name and its
      upper-cased form configure the same level, or both raise. */
  lemma ConfiguredLevelIgnoresCase(conf: Settings, t: string)
    ensures ConfiguredLevel(Some(conf["logging_level" := VText(t)]))
         == ConfiguredLevel(Some(conf["logging_level" := VText(Upper(t))]))
  {
    UpperIdempotent(t);
  }

  /** Configuring from a stored name raises exactly when the upper-cased name
      is a module attribute other than a level. */
  lemma ConfiguredLevelRaisesIff(conf: Settings, t: string)
    ensures ConfiguredLevel(Some(conf["logging_level" := VText(t)])).None? <==> Upper(t) in OtherAttributes
  {
  }

  /** Level names are read without regard to case: "debug" is DEBUG. */
  lemma LowerCaseLevelName(t: string)
    requires t == "debug"
    ensures ConfiguredLevel(Some(map["logging_level" := VText(t)])) == Some(Debug)
  {
    assert Upper(t) == "DEBUG";
  }

  /** "Error" is ERROR. */
  lemma MixedCaseLevelName(t: string)
    requires t == "Error"
    ensures ConfiguredLevel(Some(map["logging_level" := VText(t)])) == Some(Error)
  {
    assert Upper(t) == "ERROR";
  }

  /** A name the logging module does not define falls back to WARNING. */
  lemma UnknownLevelName(t: string)
    requires t == "verbose"
    ensures ConfiguredLevel(Some(map["logging_level" := VText(t)])) == Some(Warning)
  {
    assert Upper(t)[0] == 'V' && |Upper(t)| == 7;
  }

  /** "basic_format" names the logging module's default format text, which
      `setLevel` refuses. */
  lemma BasicFormatRaises(t: string)
    requires t == "basic_format"
    ensures ConfiguredLevel(Some(map["logging_level" := VText(t)])).None?
  {
    assert Upper(t) == "BASIC_FORMAT";
  }
}
