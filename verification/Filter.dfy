/** The rule engine: severity map, global drop rules, allow-lists per source. */
module Filter {
  import opened Wrappers
  import opened Event
  import Json

  datatype MatchOp =
    | Eq(expected: Json.Value)
    | In(choices: seq<Json.Value>)
    | RegexMatch(pattern: string)
    | Exists(wanted: bool)

  datatype Rule = Rule(field: string, op: MatchOp)

  /** Whether a pattern matches a text; false for a pattern that does not compile. */
  type Regexes = (string, string) -> bool

  predicate Matches(rx: Regexes, rule: Rule, root: Json.Value) {
    match (rule.op, Lookup(root, rule.field))
    case (Exists(wanted), found) => wanted == found.Some?
    case (_, None) => false
    case (Eq(expected), Some(actual)) => Json.Same(actual, expected)
    case (In(choices), Some(actual)) => exists i :: 0 <= i < |choices| && Json.Same(choices[i], actual)
    case (RegexMatch(pattern), Some(actual)) =>
      rx(pattern, if actual.Str? then actual.s else Json.Render(actual))
  }

  predicate AnyMatches(rx: Regexes, rules: seq<Rule>, root: Json.Value) {
    exists i :: 0 <= i < |rules| && Matches(rx, rules[i], root)
  }

  datatype Engine = Engine(
    globalDrop: seq<Rule>,
    perSourceAllow: map<string, seq<Rule>>,
    severityMap: map<string, Severity>)

  function Tagged(severityMap: map<string, Severity>, e: NormalizedEvent): NormalizedEvent {
    if e.action in severityMap then e.(severity := severityMap[e.action]) else e
  }

  /** The event with its mapped severity if it passes, nothing if it is dropped. */
  function Evaluate(rx: Regexes, engine: Engine, event: NormalizedEvent): Option<NormalizedEvent> {
    var e := Tagged(engine.severityMap, event);
    var root := ToValue(e);
    if AnyMatches(rx, engine.globalDrop, root) then None
    else
      var key := SourceName(e.source);
      if key in engine.perSourceAllow
         && engine.perSourceAllow[key] != []
         && !AnyMatches(rx, engine.perSourceAllow[key], root)
      then None
      else Some(e)
  }

  // ---- Configuration -------------------------------------------------------

  datatype FiltersConfig = FiltersConfig(
    drop: seq<Rule>,
    audit: seq<Rule>,
    events: seq<Rule>,
    accessLogs: seq<Rule>,
    webInventory: seq<Rule>)
  {
    function Allow(tag: SourceTag): seq<Rule> {
      match tag
      case Audit => audit
      case Events => events
      case AccessLogs => accessLogs
      case WebInventory => webInventory
    }
  }

  /** An engine that holds the configuration's rules under the sources' keys. */
  ghost predicate Built(engine: Engine, cfg: FiltersConfig, severityMap: map<string, Severity>) {
    && engine.globalDrop == cfg.drop
    && engine.severityMap == severityMap
    && forall tag: SourceTag ::
         (if SourceName(tag) in engine.perSourceAllow then engine.perSourceAllow[SourceName(tag)] else []) == cfg.Allow(tag)
  }

  function InsertAllow(m: map<string, seq<Rule>>, key: string, rules: seq<Rule>): map<string, seq<Rule>> {
    if rules == [] then m else m[key := rules]
  }

  /** Whatever sources have allow-lists, each list ends up under its own source's key. */
  method BuildFilter(cfg: FiltersConfig, severityMap: map<string, Severity>) returns (engine: Engine)
    ensures Built(engine, cfg, severityMap)
    ensures forall tag: SourceTag :: cfg.Allow(tag) != [] ==>
              SourceName(tag) in engine.perSourceAllow && engine.perSourceAllow[SourceName(tag)] == cfg.Allow(tag)
    ensures forall tag: SourceTag :: cfg.Allow(tag) == [] ==> SourceName(tag) !in engine.perSourceAllow
  {
    var allow: map<string, seq<Rule>> := map[];
    allow := InsertAllow(allow, "audit", cfg.audit);
    allow := InsertAllow(allow, "events", cfg.events);
    allow := InsertAllow(allow, "accesslogs", cfg.accessLogs);
    allow := InsertAllow(allow, "webinventory", cfg.webInventory);
    forall a: SourceTag, b: SourceTag | SourceName(a) == SourceName(b) ensures a == b {
      SourceNameUnique(a, b);
    }
    engine := Engine(cfg.drop, allow, severityMap);
  }

  /** What the configuration promises: no drop rule matches, and one rule of the
      source's own allow-list does, unless that list is empty. */
  predicate Passes(rx: Regexes, cfg: FiltersConfig, severityMap: map<string, Severity>, e: NormalizedEvent) {
    var root := ToValue(Tagged(severityMap, e));
    && !AnyMatches(rx, cfg.drop, root)
    && (cfg.Allow(e.source) == [] || AnyMatches(rx, cfg.Allow(e.source), root))
  }

  /** The engine does what the configuration promises, and changes nothing but severity. */
  lemma EvaluateMeetsConfig(rx: Regexes, engine: Engine, cfg: FiltersConfig, severityMap: map<string, Severity>, e: NormalizedEvent)
    requires Built(engine, cfg, severityMap)
    ensures Evaluate(rx, engine, e).Some? <==> Passes(rx, cfg, severityMap, e)
    ensures Evaluate(rx, engine, e).Some? ==>
              exists s: Severity :: Evaluate(rx, engine, e).value == e.(severity := s)
                                    && (e.action !in severityMap ==> s == e.severity)
                                    && (e.action in severityMap ==> s == severityMap[e.action])
  {
    var t := Tagged(severityMap, e);
    assert cfg.Allow(t.source) == cfg.Allow(e.source);
    if Evaluate(rx, engine, e).Some? {
      assert Evaluate(rx, engine, e).value == e.(severity := t.severity);
    }
  }

  lemma EvaluateIdempotent(rx: Regexes, engine: Engine, e: NormalizedEvent)
    requires Evaluate(rx, engine, e).Some?
    ensures Evaluate(rx, engine, Evaluate(rx, engine, e).value) == Evaluate(rx, engine, e)
  {
    var t := Tagged(engine.severityMap, e);
    assert Tagged(engine.severityMap, t) == t;
  }

  /** More drop rules never let more through; more rules in a non-empty allow-list
      never let less through; the order and number of copies of rules is immaterial. */
  lemma EvaluateMonotone(rx: Regexes, cfg: FiltersConfig, wider: FiltersConfig, severityMap: map<string, Severity>, e: NormalizedEvent)
    requires forall r :: r in wider.drop ==> r in cfg.drop
    requires forall r :: r in cfg.Allow(e.source) ==> r in wider.Allow(e.source)
    requires cfg.Allow(e.source) == [] ==> wider.Allow(e.source) == []
    requires Passes(rx, cfg, severityMap, e)
    ensures Passes(rx, wider, severityMap, e)
  {
    var root := ToValue(Tagged(severityMap, e));
    if AnyMatches(rx, wider.drop, root) {
      MatchesMore(rx, wider.drop, cfg.drop, root);
    }
    if cfg.Allow(e.source) != [] {
      MatchesMore(rx, cfg.Allow(e.source), wider.Allow(e.source), root);
    }
  }

  lemma MatchesMore(rx: Regexes, some: seq<Rule>, more: seq<Rule>, root: Json.Value)
    requires AnyMatches(rx, some, root) && forall r :: r in some ==> r in more
    ensures AnyMatches(rx, more, root)
  {
    var i :| 0 <= i < |some| && Matches(rx, some[i], root);
    assert some[i] in more;
    var j :| 0 <= j < |more| && more[j] == some[i];
  }

  // ---- What the operators mean ---------------------------------------------

  lemma {:induction false} WalkProper(v: Json.Value, parts: seq<string>)
    requires Json.Proper(v) && Walk(v, parts).Some?
    ensures Json.Proper(Walk(v, parts).value)
  {
    if parts != [] {
      var next := Json.Get(v, parts[0]).value;
      assert Json.Field(parts[0], next) in v.fields;
      WalkProper(next, parts[1..]);
    }
  }

  /** `exists` asks whether the path leads anywhere. */
  lemma ExistsMatches(rx: Regexes, field: string, root: Json.Value)
    ensures Matches(rx, Rule(field, Exists(true)), root) <==> Lookup(root, field).Some?
    ensures Matches(rx, Rule(field, Exists(false)), root) <==> Lookup(root, field).None?
  {
  }

  /** The other operators never match where it does not. */
  lemma AbsentNeverMatches(rx: Regexes, rule: Rule, root: Json.Value)
    requires Lookup(root, rule.field).None? && !rule.op.Exists?
    ensures !Matches(rx, rule, root)
  {
  }

  /** `eq` with a text, a number, a truth value or null asks for exactly that. */
  lemma EqMatches(rx: Regexes, field: string, expected: Json.Value, root: Json.Value)
    ensures !expected.Arr? && !expected.Obj? ==>
              (Matches(rx, Rule(field, Eq(expected)), root) <==> Lookup(root, field) == Some(expected))
    ensures Matches(rx, Rule(field, Eq(expected)), root) ==>
              var found := Lookup(root, field);
              found.Some? && (found.value.Arr? <==> expected.Arr?) && (found.value.Obj? <==> expected.Obj?)
    ensures Json.Proper(expected) && Lookup(root, field) == Some(expected) ==> Matches(rx, Rule(field, Eq(expected)), root)
  {
    var found := Lookup(root, field);
    if found.Some? {
      if Json.Same(found.value, expected) {
        Json.SameKind(found.value, expected);
      }
      if Json.Proper(expected) {
        Json.SameReflexive(expected);
      }
    }
  }

  /** `in` asks for any of its choices. */
  lemma InMatches(rx: Regexes, field: string, choices: seq<Json.Value>, root: Json.Value)
    requires Json.Proper(root) && forall i :: 0 <= i < |choices| ==> Json.Proper(choices[i])
    ensures Matches(rx, Rule(field, In(choices)), root) <==>
              exists i :: 0 <= i < |choices| && Matches(rx, Rule(field, Eq(choices[i])), root)
  {
    var found := Lookup(root, field);
    if found.Some? {
      WalkProper(root, Split(field));
      forall i | 0 <= i < |choices| ensures Json.Same(choices[i], found.value) <==> Json.Same(found.value, choices[i]) {
        if Json.Same(choices[i], found.value) {
          Json.SameSymmetric(choices[i], found.value);
        }
        if Json.Same(found.value, choices[i]) {
          Json.SameSymmetric(found.value, choices[i]);
        }
      }
      forall i | 0 <= i < |choices|
        ensures Matches(rx, Rule(field, Eq(choices[i])), root) <==> Json.Same(choices[i], found.value)
      {
      }
    }
  }

  /** A pattern is tried on a text as it is, and on the JSON text of anything else. */
  lemma RegexMatches(rx: Regexes, field: string, pattern: string, root: Json.Value)
    ensures Matches(rx, Rule(field, RegexMatch(pattern)), root) <==>
              var found := Lookup(root, field);
              found.Some? && (if found.value.Str? then rx(pattern, found.value.s) else rx(pattern, Json.Render(found.value)))
  {
  }

  // ---- What becomes of an event --------------------------------------------

  lemma OneRule(rx: Regexes, rule: Rule, root: Json.Value)
    ensures AnyMatches(rx, [rule], root) <==> Matches(rx, rule, root)
  {
    assert [rule][0] == rule;
  }

  lemma TaggedKeeps(severityMap: map<string, Severity>, e: NormalizedEvent)
    ensures var t := Tagged(severityMap, e);
            && t == e.(severity := t.severity)
            && t.severity == if e.action in severityMap then severityMap[e.action] else e.severity
  {
  }

  /** A drop rule for the event's action drops it, whatever other rules there are. */
  lemma DropByAction(rx: Regexes, engine: Engine, e: NormalizedEvent)
    requires Rule("slack.action", Eq(Json.Str(e.action))) in engine.globalDrop
    ensures Evaluate(rx, engine, e).None?
  {
    var t := Tagged(engine.severityMap, e);
    TaggedKeeps(engine.severityMap, e);
    FieldsFound(t);
    hide ToValue, Lookup, Tagged;
    var rule := Rule("slack.action", Eq(Json.Str(e.action)));
    EqMatches(rx, rule.field, rule.op.expected, ToValue(t));
    var i :| 0 <= i < |engine.globalDrop| && engine.globalDrop[i] == rule;
    assert Matches(rx, engine.globalDrop[i], ToValue(t));
  }

  /** A single drop rule for an actor's address drops exactly that actor's events. */
  lemma DropByEmail(rx: Regexes, engine: Engine, email: string, e: NormalizedEvent)
    requires engine.globalDrop == [Rule("slack.actor.email", Eq(Json.Str(email)))] && engine.perSourceAllow == map[]
    ensures Evaluate(rx, engine, e).None? <==> e.actor.Some? && e.actor.value.email == Some(email)
  {
    var t := Tagged(engine.severityMap, e);
    TaggedKeeps(engine.severityMap, e);
    ActorPaths(t);
    hide ToValue, Lookup, Tagged, Matches, AnyMatches;
    OneRule(rx, engine.globalDrop[0], ToValue(t));
    EqMatches(rx, "slack.actor.email", Json.Str(email), ToValue(t));
  }

  /** Rules see the mapped severity: a drop rule for high ones drops exactly the events that
      the map makes high, or that are and stay so. */
  lemma DropBySeverity(rx: Regexes, engine: Engine, e: NormalizedEvent)
    requires engine.globalDrop == [Rule("severity", Eq(Json.Str("high")))] && engine.perSourceAllow == map[]
    ensures Evaluate(rx, engine, e).None? <==>
              (if e.action in engine.severityMap then engine.severityMap[e.action] else e.severity).High?
  {
    var t := Tagged(engine.severityMap, e);
    TaggedKeeps(engine.severityMap, e);
    NamesFound(t);
    SeverityTexts(t.severity);
    hide ToValue, Lookup, Tagged, Matches, AnyMatches;
    OneRule(rx, engine.globalDrop[0], ToValue(t));
    EqMatches(rx, "severity", Json.Str("high"), ToValue(t));
  }

  lemma SeverityTexts(s: Severity)
    ensures s.High? <==>
              "high" == match s
                        case Info => "info" case Low => "low" case Medium => "medium" case High => "high"
                        case Critical => "critical"
  {
    assert "high"[0] == 'h' && |"high"| == 4 && |"info"| == 4 && "info"[0] == 'i';
    assert |"low"| == 3 && |"medium"| == 6 && |"critical"| == 8;
  }

  /** An allow-list for audit events lets exactly the listed action of that source through, and
      does not concern the other sources. */
  lemma AllowByAction(rx: Regexes, engine: Engine, action: string, e: NormalizedEvent)
    requires engine.globalDrop == []
    requires engine.perSourceAllow == map["audit" := [Rule("slack.action", Eq(Json.Str(action)))]]
    ensures Evaluate(rx, engine, e).Some? <==> e.source != Audit || e.action == action
  {
    var t := Tagged(engine.severityMap, e);
    TaggedKeeps(engine.severityMap, e);
    FieldsFound(t);
    hide ToValue, Lookup, Tagged, Matches;
    var rule := Rule("slack.action", Eq(Json.Str(action)));
    OneRule(rx, rule, ToValue(t));
    EqMatches(rx, "slack.action", Json.Str(action), ToValue(t));
    if SourceName(t.source) == "audit" {
      SourceNameUnique(t.source, Audit);
    }
  }
}
