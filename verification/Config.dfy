/** The YAML configuration after parsing: its entries and `validate` (internal/config/config.go). */
module Configuration {
  import opened Common
  import opened Store

  /** The arbitrary key-value block under a notifier's `config:` key. */
  type Block(==)

  datatype NotifierConfig = NotifierConfig(name: string, kind: string, block: Block)
  datatype EndpointConfig = EndpointConfig(
    name: string, kind: string, url: string, interval: int, threshold: int, notifiers: seq<string>)

  datatype Config = Config(notifiers: map<string, NotifierConfig>, endpoints: map<string, EndpointConfig>)

  /**
   The library functions the program calls: JSON marshalling (None is an error), JSON unmarshalling
   into a block, and the lowercasing of one character.
   */
  datatype Runtime = Runtime(marshal: Block -> Option<string>, unmarshal: string -> Option<Block>, lower: char -> char)

  function FieldsOf(ec: EndpointConfig): EndpointFields {
    EndpointFields(ec.kind, ec.name, ec.url, ec.interval, ec.threshold)
  }

  // ---- What a valid configuration is ----

  predicate UidChar(c: char) {
    'a' <= c <= 'z' || 'A' <= c <= 'Z' || '0' <= c <= '9' || c == '_' || c == '.' || c == '-'
  }

  /** The language of ^[a-zA-Z0-9_.-]+$ */
  predicate UidText(u: string) {
    |u| > 0 && forall i | 0 <= i < |u| :: UidChar(u[i])
  }

  const ENDPOINT_KINDS := {"http", "tcp"}
  const NOTIFIER_KINDS := {"telegram", "pushover", "redis"}

  predicate NotifierOk(u: string, n: NotifierConfig) {
    UidText(u) && n.name != "" && n.kind in NOTIFIER_KINDS
  }

  predicate EndpointOk(u: string, e: EndpointConfig, known: set<string>) {
    && UidText(u) && e.name != "" && e.url != ""
    && (e.kind == "" || e.kind in ENDPOINT_KINDS)
    && forall i | 0 <= i < |e.notifiers| :: e.notifiers[i] in known
  }

  predicate WellFormed(c: Config) {
    && (forall u | u in c.notifiers :: NotifierOk(u, c.notifiers[u]))
    && (forall u | u in c.endpoints :: EndpointOk(u, c.endpoints[u], c.notifiers.Keys))
  }

  function WithDefaults(e: EndpointConfig): EndpointConfig {
    e.(kind := if e.kind == "" then "http" else e.kind,
       interval := if e.interval <= 0 then 60 else e.interval,
       threshold := if e.threshold <= 0 then 3 else e.threshold)
  }

  /** What the defaults make of the columns. */
  function FilledIn(f: EndpointFields): EndpointFields {
    f.(kind := if f.kind == "" then "http" else f.kind,
       interval := if f.interval <= 0 then 60 else f.interval,
       threshold := if f.threshold <= 0 then 3 else f.threshold)
  }

  function Defaulted(c: Config): Config {
    c.(endpoints := map u | u in c.endpoints :: WithDefaults(c.endpoints[u]))
  }

  /** What the rest of the program may assume of a configuration that passed `validate`. */
  ghost predicate Valid(c: Config) {
    && (forall u | u in c.notifiers :: NotifierOk(u, c.notifiers[u]))
    && (forall u | u in c.endpoints ::
          && EndpointOk(u, c.endpoints[u], c.notifiers.Keys)
          && c.endpoints[u].kind in ENDPOINT_KINDS && c.endpoints[u].interval > 0 && c.endpoints[u].threshold > 0)
  }

  // ---- validate ----

  datatype ConfigError = BadUid(uid: string) | MissingName(uid: string) | MissingType(uid: string) |
      MissingUrl(uid: string)
    | UnsupportedType(uid: string) | UnknownNotifier(uid: string, notifier: string)

  /** The entry an error names really has the defect the error reports. */
  predicate Blames(c: Config, err: ConfigError) {
    match err
    case BadUid(u) => (u in c.notifiers || u in c.endpoints) && !UidText(u)
    case MissingName(u) => (u in c.notifiers && c.notifiers[u].name == "") ||
        (u in c.endpoints && c.endpoints[u].name == "")
    case MissingType(u) => u in c.notifiers && c.notifiers[u].kind == ""
    case MissingUrl(u) => u in c.endpoints && c.endpoints[u].url == ""
    case UnsupportedType(u) =>
      || (u in c.notifiers && c.notifiers[u].kind !in NOTIFIER_KINDS)
      || (u in c.endpoints && c.endpoints[u].kind != "" && c.endpoints[u].kind !in ENDPOINT_KINDS)
    case UnknownNotifier(u, n) => u in c.endpoints && n in c.endpoints[u].notifiers && n !in c.notifiers
  }

  class ConfigFile {
    var notifiers: map<string, NotifierConfig>
    var endpoints: map<string, EndpointConfig>

    ghost function Value(): Config
      reads this
    {
      Config(notifiers, endpoints)
    }

    constructor (c: Config)
      ensures Value() == c
    {
      notifiers := c.notifiers;
      endpoints := c.endpoints;
    }

    method ValidateNotifiers() returns (err: Option<ConfigError>)
      modifies this`notifiers
      ensures notifiers == old(notifiers)
      ensures err.None? <==> forall u | u in notifiers :: NotifierOk(u, notifiers[u])
      ensures err.Some? ==> Blames(Value(), err.value)
    {
      var todo := notifiers.Keys;
      while todo != {}
        invariant todo <= notifiers.Keys
        invariant notifiers == old(notifiers)
        invariant forall u | u in notifiers.Keys - todo :: NotifierOk(u, notifiers[u])
        decreases |todo|
      {
        var u :| u in todo;
        todo := todo - {u};
        var n := notifiers[u];
        if !UidText(u) { return Some(BadUid(u)); }
        if n.name == "" { return Some(MissingName(u)); }
        if n.kind == "" { return Some(MissingType(u)); }
        if n.kind !in NOTIFIER_KINDS { return Some(UnsupportedType(u)); }
        notifiers := notifiers[u := n];
      }
      return None;
    }

    /** One endpoint entry: the defaults are written back before the references are checked. */
    method ValidateEndpoint(u: string) returns (err: Option<ConfigError>)
      requires u in endpoints
      modifies this`endpoints
      ensures err.None? <==> EndpointOk(u, old(endpoints)[u], notifiers.Keys)
      ensures err.Some? ==> Blames(old(Value()), err.value)
      ensures endpoints == old(endpoints) || endpoints == old(endpoints)[u := WithDefaults(old(endpoints)[u])]
      ensures err.None? ==> endpoints == old(endpoints)[u := WithDefaults(old(endpoints)[u])]
    {
      var e := endpoints[u];
      if !UidText(u) { return Some(BadUid(u)); }
      if e.name == "" { return Some(MissingName(u)); }
      if e.url == "" { return Some(MissingUrl(u)); }
      var ep := e;
      if ep.kind == "" { ep := ep.(kind := "http"); }
      if ep.kind !in ENDPOINT_KINDS { return Some(UnsupportedType(u)); }
      if ep.interval <= 0 { ep := ep.(interval := 60); }
      if ep.threshold <= 0 { ep := ep.(threshold := 3); }
      endpoints := endpoints[u := ep];
      for i := 0 to |ep.notifiers|
        invariant forall j | 0 <= j < i :: ep.notifiers[j] in notifiers
      {
        if ep.notifiers[i] !in notifiers {
          assert e.notifiers[i] !in notifiers.Keys;
          return Some(UnknownNotifier(u, ep.notifiers[i]));
        }
      }
      return None;
    }

    method ValidateEndpoints() returns (err: Option<ConfigError>)
      modifies this`endpoints
      ensures err.None? <==> forall u | u in old(endpoints) :: EndpointOk(u, old(endpoints)[u], notifiers.Keys)
      ensures err.None? ==> endpoints == Defaulted(old(Value())).endpoints
      ensures err.Some? ==> Blames(old(Value()), err.value)
      ensures PartlyDefaulted(old(Value()), Value())
    {
      ghost var c := Value();
      var todo := endpoints.Keys;
      while todo != {}
        invariant todo <= endpoints.Keys && endpoints.Keys == c.endpoints.Keys
        invariant forall u | u in endpoints ::
            endpoints[u] == if u in todo then c.endpoints[u] else WithDefaults(c.endpoints[u])
        invariant forall u | u in c.endpoints && u !in todo :: EndpointOk(u, c.endpoints[u], notifiers.Keys)
        decreases |todo|
      {
        var u :| u in todo;
        ghost var partial := Value();
        err := ValidateEndpoint(u);
        if err.Some? {
          StillBlamed(c, partial, err.value);
          OneMoreDefaulted(c, partial, u, Value());
          return;
        }
        todo := todo - {u};
      }
      SameMap(endpoints, Defaulted(c).endpoints);
      return None;
    }

    /** Checks every entry, in any order, and writes the defaults back entry by entry. */
    method Validate() returns (err: Option<ConfigError>)
      modifies this
      ensures err.None? <==> WellFormed(old(Value()))
      ensures err.None? ==> Value() == Defaulted(old(Value()))
      ensures err.Some? ==> Blames(old(Value()), err.value)
      ensures PartlyDefaulted(old(Value()), Value())
    {
      err := ValidateNotifiers();
      if err.None? {
        err := ValidateEndpoints();
      }
    }
  }

  /** What validation may have done to a configuration, even when it fails half way. */
  ghost predicate PartlyDefaulted(c: Config, d: Config) {
    && d.notifiers == c.notifiers
    && d.endpoints.Keys == c.endpoints.Keys
    && forall u | u in c.endpoints :: d.endpoints[u] == c.endpoints[u] || d.endpoints[u] == WithDefaults(c.endpoints[u])
  }

  lemma OneMoreDefaulted(c: Config, partial: Config, u: string, d: Config)
    requires PartlyDefaulted(c, partial) && u in c.endpoints && partial.endpoints[u] == c.endpoints[u]
    requires d.notifiers == c.notifiers
    requires d.endpoints == partial.endpoints || d.endpoints == partial.endpoints[u := WithDefaults(c.endpoints[u])]
    ensures PartlyDefaulted(c, d)
  {
  }

  /** An error found in a partly defaulted configuration is an error of the original one. */
  lemma StillBlamed(c: Config, partial: Config, err: ConfigError)
    requires PartlyDefaulted(c, partial) && Blames(partial, err)
    ensures Blames(c, err)
  {
  }

  /** Passing `validate` once is enough: the result is valid, and validating it again changes nothing. */
  lemma ValidateSettles(c: Config)
    ensures Valid(c) <==> WellFormed(c) && Defaulted(c) == c
    ensures WellFormed(c) <==> Valid(Defaulted(c))
    ensures Defaulted(Defaulted(c)) == Defaulted(c)
  {
    var d := Defaulted(c);
    assert Defaulted(d).endpoints == d.endpoints;
    forall u | u in c.endpoints
      ensures EndpointOk(u, c.endpoints[u], c.notifiers.Keys) <==> EndpointOk(u, d.endpoints[u], d.notifiers.Keys)
    {
      assert d.endpoints[u] == WithDefaults(c.endpoints[u]);
    }
    assert forall u | u in c.endpoints :: u in d.endpoints;
    if Defaulted(c) == c {
      assert forall u | u in c.endpoints :: c.endpoints[u] == WithDefaults(c.endpoints[u]);
    }
    if Valid(c) {
      assert Defaulted(c).endpoints == c.endpoints;
    }
  }

  // ---- The same in plain terms ----

  /** What an entry needs, with the supported types by name. */
  lemma EntryNeeds(u: string, n: NotifierConfig, e: EndpointConfig, known: set<string>)
    ensures NotifierOk(u, n) <==>
              UidText(u) && n.name != "" && (n.kind == "telegram" || n.kind == "pushover" || n.kind == "redis")
    ensures EndpointOk(u, e, known) <==>
              && UidText(u) && e.name != "" && e.url != "" && (e.kind == "" || e.kind == "http" || e.kind == "tcp")
              && forall v | v in e.notifiers :: v in known
  {
  }

  /** A uid is a non-empty text of ASCII letters, digits, '_' (95), '.' (46) and '-' (45). */
  lemma UidAlphabet(u: string)
    ensures UidText(u) <==>
              u != "" && forall c | c in u ::
                var code := c as int;
                97 <= code <= 122 || 65 <= code <= 90 || 48 <= code <= 57 || code == 95 || code == 46 || code == 45
  {
    forall i | 0 <= i < |u|
      ensures u[i] in u
    {
    }
    assert forall c | c in u :: exists i :: 0 <= i < |u| && u[i] == c;
  }

  /** A file like the repository's example: all notifier types, both endpoint types, and an entry left to defaults. */
  lemma ExampleValidates(block: Block)
    ensures var c := Config(
              map["telegram_ops" := NotifierConfig("Ops Team Telegram", "telegram", block),
                  "pushover_alerts" := NotifierConfig("Pushover Critical Alerts", "pushover", block),
                  "redis_tracker" := NotifierConfig("Local Redis Tracking", "redis", block)],
              map["my_website" := EndpointConfig("My Website", "http", "https://example.com", 60, 3,
                                                 ["telegram_ops", "pushover_alerts"]),
                  "google_dns" := EndpointConfig("Google DNS", "tcp", "8.8.8.8:53", 30, 2, ["telegram_ops"]),
                  "plain" := EndpointConfig("Plain", "", "http://plain", 0, 0, [])]);
            && WellFormed(c)
            && Defaulted(c).notifiers == c.notifiers
            && Defaulted(c).endpoints ==
                 c.endpoints["plain" := EndpointConfig("Plain", "http", "http://plain", 60, 3, [])]
  {
    ExampleUids();
  }

  lemma ExampleUids()
    ensures UidText("telegram_ops") && UidText("pushover_alerts") && UidText("redis_tracker")
    ensures UidText("my_website") && UidText("google_dns") && UidText("plain")
  {
  }

  /** Defaults fill in what is empty or not positive, and nothing else. */
  lemma DefaultsAre(e: EndpointConfig)
    ensures var d := WithDefaults(e);
            && d.name == e.name && d.url == e.url && d.notifiers == e.notifiers
            && (if e.kind == "" then d.kind == "http" else d.kind == e.kind)
            && (if e.interval > 0 then d.interval == e.interval else d.interval == 60)
            && (if e.threshold > 0 then d.threshold == e.threshold else d.threshold == 3)
  {
  }
}
