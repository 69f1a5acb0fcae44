/** What every plugin shares: its metadata, its two lifecycle flags, the
    status text derived from them, the document access it asks for by
    default, and the message of a plugin exception. The plugin's own
    `initialize`, `enable`, `disable` and `cleanup` are supplied by each
    plugin; the model takes their outcomes as inputs where they are called. */
module BasePlugin {
  import opened Wrappers
  import opened Text
  import opened HookSystem

  /** A plugin's metadata. `dependencies` is absent (`None`) or a list of
      plugin names. */
  datatype PluginInfo = PluginInfo(
    name: string,
    version: string,
    description: string,
    author: string,
    dependencies: Option<seq<string>>)

  /** A plugin instance as the manager sees it: its metadata, the two flags,
      the access it asks for and the hook handlers it provides. */
  datatype Plugin = Plugin(
    info: PluginInfo,
    enabled: bool,
    initialized: bool,
    requirements: map<string, bool>,
    handlers: seq<HookHandler>)

  /** A freshly constructed plugin. */
  function NewPlugin(info: PluginInfo, requirements: map<string, bool>, handlers: seq<HookHandler>): (p: Plugin)
    ensures !p.enabled && !p.initialized
    ensures p.info == info && p.requirements == requirements && p.handlers == handlers
  {
    Plugin(info, false, false, requirements, handlers)
  }

  /** `get_status`. */
  function Status(p: Plugin): (s: string)
    ensures s in {"Not initialized", "Enabled", "Disabled"}
  {
    if !p.initialized then "Not initialized"
    else if p.enabled then "Enabled"
    else "Disabled"
  }

  /** The status text tells the two flags apart except that an uninitialised
      plugin reads "Not initialized" whether or not it is enabled. */
  lemma StatusMeaning(p: Plugin)
    ensures Status(p) == "Not initialized" <==> !p.initialized
    ensures Status(p) == "Enabled" <==> p.initialized && p.enabled
    ensures Status(p) == "Disabled" <==> p.initialized && !p.enabled
  {
  }

  /** A new plugin is reported as not initialised. */
  lemma NewPluginStatus(info: PluginInfo, requirements: map<string, bool>, handlers: seq<HookHandler>)
    ensures Status(NewPlugin(info, requirements, handlers)) == "Not initialized"
  {
  }

  /** The six kinds of document access a plugin can ask for. */
  const AccessKeys: set<string> :=
    {"plan_view", "tile_preview", "document_data", "metadata", "measurements", "transformations"}

  /** `get_document_access_requirements` of the base class: nothing is
      asked for. */
  function DefaultRequirements(): (req: map<string, bool>)
    ensures req.Keys == AccessKeys
    ensures forall k :: k in req ==> !req[k]
  {
    map["plan_view" := false, "tile_preview" := false, "document_data" := false,
        "metadata" := false, "measurements" := false, "transformations" := false]
  }

  /** `requirements.get(key, False)`. */
  function Required(req: map<string, bool>, key: string): bool {
    key in req && req[key]
  }

  /** `any(requirements.values())`. */
  predicate AnyRequired(req: map<string, bool>) {
    exists k :: k in req && req[k]
  }

  /** A plugin keeping the default requirements asks for no access at all. */
  lemma DefaultRequiresNothing()
    ensures !AnyRequired(DefaultRequirements())
    ensures forall k :: !Required(DefaultRequirements(), k)
  {
  }

  /** The message of a `PluginException`: `Plugin '<name>': <message>`. */
  function ExceptionMessage(name: string, message: string): (m: string)
    ensures StartsWith(m, "Plugin '") && EndsWith(m, message)
    ensures |m| == |name| + |message| + 11
    ensures m[8..8 + |name|] == name && m[8 + |name|..11 + |name|] == "': "
  {
    var m := "Plugin '" + name + "': " + message;
    assert m[..8] == "Plugin '";
    assert m[8..8 + |name|] == name;
    assert m[8 + |name|..11 + |name|] == "': ";
    m
  }

  /** For plugin names without a quote the message determines both the
      plugin name and the text. */
  lemma ExceptionMessageInjective(n1: string, m1: string, n2: string, m2: string)
    requires NoChar(n1, '\'') && NoChar(n2, '\'')
    requires ExceptionMessage(n1, m1) == ExceptionMessage(n2, m2)
    ensures n1 == n2 && m1 == m2
  {
    var a, b := ExceptionMessage(n1, m1), ExceptionMessage(n2, m2);
    if |n1| < |n2| {
      MessageChars(n2, m2, |n1|);
      assert false;
    } else if |n2| < |n1| {
      MessageChars(n1, m1, |n2|);
      assert false;
    }
    assert n1 == a[8..8 + |n1|] == n2;
    assert m1 == a[11 + |n1|..] == m2;
  }

  /** The characters of the plugin name sit right after the opening quote. */
  lemma MessageChars(name: string, message: string, i: nat)
    requires i < |name|
    ensures ExceptionMessage(name, message)[8 + i] == name[i]
  {
    var m := ExceptionMessage(name, message);
    assert m[8..8 + |name|][i] == name[i];
  }
}
