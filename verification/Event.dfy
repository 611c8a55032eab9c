/** The normalized event, its JSON value, and dotted-path lookup in it. */
module Event {
  import opened Wrappers
  import opened Json

  datatype SourceTag = Audit | Events | AccessLogs | WebInventory

  datatype Severity = Info | Low | Medium | High | Critical

  datatype Actor = Actor(kind: string, id: Option<string>, name: Option<string>, email: Option<string>)

  datatype Entity = Entity(kind: string, id: Option<string>, name: Option<string>)

  datatype Context = Context(ip: Option<string>, ua: Option<string>, location: Option<Value>)

  datatype NormalizedEvent = NormalizedEvent(
    timestamp: string,
    source: SourceTag,
    action: string,
    eventId: string,
    actor: Option<Actor>,
    entity: Option<Entity>,
    context: Option<Context>,
    severity: Severity,
    raw: Value)

  function LocationTag(tag: SourceTag): string {
    match tag
    case Audit => "slack-audit"
    case Events => "slack-events"
    case AccessLogs => "slack-access"
    case WebInventory => "slack-inventory"
  }

  /** The serialized tag; the filter uses the same text as its per-source key. */
  function SourceName(tag: SourceTag): string {
    match tag
    case Audit => "audit"
    case Events => "events"
    case AccessLogs => "accesslogs"
    case WebInventory => "webinventory"
  }

  function SeverityName(s: Severity): string {
    match s
    case Info => "info"
    case Low => "low"
    case Medium => "medium"
    case High => "high"
    case Critical => "critical"
  }

  /** An absent optional field is not serialized at all. */
  function Text(key: string, o: Option<string>): seq<Field> {
    if o.Some? then [Field(key, Str(o.value))] else []
  }

  function ActorFields(o: Option<Actor>): seq<Field> {
    if o.None? then [] else
      var a := o.value;
      [Field("actor", Obj([Field("type", Str(a.kind))] + Text("id", a.id) + Text("name", a.name) + Text("email", a.email)))]
  }

  function EntityFields(o: Option<Entity>): seq<Field> {
    if o.None? then [] else
      var e := o.value;
      [Field("entity", Obj([Field("type", Str(e.kind))] + Text("id", e.id) + Text("name", e.name)))]
  }

  function LocationFields(o: Option<Value>): seq<Field> {
    if o.Some? then [Field("location", o.value)] else []
  }

  function ContextFields(o: Option<Context>): seq<Field> {
    if o.None? then [] else
      var c := o.value;
      [Field("context", Obj(Text("ip", c.ip) + Text("ua", c.ua) + LocationFields(c.location)))]
  }

  /** The part of an event that is nested under its own key. */
  function SlackFields(e: NormalizedEvent): seq<Field> {
    [Field("source", Str(SourceName(e.source))), Field("action", Str(e.action)), Field("event_id", Str(e.eventId))]
    + ActorFields(e.actor) + EntityFields(e.entity) + ContextFields(e.context)
  }

  function ToValue(e: NormalizedEvent): Value {
    Obj([Field("@timestamp", Str(e.timestamp)), Field("slack", Obj(SlackFields(e))),
         Field("severity", Str(SeverityName(e.severity))), Field("raw", e.raw)])
  }

  // ---- Names and single fields ---------------------------------------------

  lemma SourceNameUnique(a: SourceTag, b: SourceTag)
    requires SourceName(a) == SourceName(b)
    ensures a == b
  {
    assert |SourceName(a)| == |SourceName(b)|;
  }

  lemma SeverityNameUnique(a: Severity, b: Severity)
    requires SeverityName(a) == SeverityName(b)
    ensures a == b
  {
    assert |SeverityName(a)| == |SeverityName(b)| && SeverityName(a)[0] == SeverityName(b)[0];
  }

  predicate Keyed(fields: seq<Field>, key: string) {
    |fields| <= 1 && (fields != [] ==> fields[0].key == key)
  }

  // ---- Dotted paths --------------------------------------------------------

  function FirstDot(path: string): (k: nat)
    ensures k <= |path|
    ensures forall i :: 0 <= i < k ==> path[i] != '.'
    ensures k < |path| ==> path[k] == '.'
  {
    if path == "" || path[0] == '.' then 0 else 1 + FirstDot(path[1..])
  }

  /** The parts between dots; a path has at least one part, possibly empty. */
  function Split(path: string): (parts: seq<string>)
    ensures parts != []
    decreases |path|
  {
    var k := FirstDot(path);
    if k == |path| then [path] else [path[..k]] + Split(path[k + 1..])
  }

  /** Meaning of a path: one key after the other. */
  function Walk(v: Value, parts: seq<string>): Option<Value> {
    if parts == [] then Some(v) else
      var next := Get(v, parts[0]);
      if next.None? then None else Walk(next.value, parts[1..])
  }

  method LookupDotted(v: Value, path: string) returns (r: Option<Value>)
    ensures r == Walk(v, Split(path))
  {
    var parts := Split(path);
    var cur := v;
    for i := 0 to |parts|
      invariant Walk(v, parts) == Walk(cur, parts[i..])
    {
      var next := Get(cur, parts[i]);
      if next.None? {
        return None;
      }
      cur := next.value;
    }
    r := Some(cur);
  }

  function Lookup(v: Value, path: string): Option<Value> {
    Walk(v, Split(path))
  }

  lemma {:induction false} FirstDotJoined(p: string, q: string)
    ensures FirstDot(p + "." + q) == FirstDot(p)
  {
    var path := p + "." + q;
    if p != "" && p[0] != '.' {
      assert path[0] == p[0] && path[1..] == p[1..] + "." + q;
      FirstDotJoined(p[1..], q);
    } else {
      assert path[0] == '.';
    }
  }

  lemma JoinedSlices(p: string, q: string, k: nat)
    requires k < |p|
    ensures (p + "." + q)[..k] == p[..k] && (p + "." + q)[k + 1..] == p[k + 1..] + "." + q
  {
  }

  lemma SplitLast(path: string, q: string)
    requires FirstDot(path) == |path|
    ensures Split(path + "." + q) == [path] + Split(q)
  {
    var joined := path + "." + q;
    FirstDotJoined(path, q);
    assert joined[..|path|] == path && joined[|path| + 1..] == q;
  }

  lemma {:induction false} SplitJoined(p: string, q: string)
    ensures Split(p + "." + q) == Split(p) + Split(q)
    decreases |p|
  {
    var k := FirstDot(p);
    if k == |p| {
      SplitLast(p, q);
    } else {
      var head, tail := p[..k], p[k + 1..];
      FirstDotJoined(p, q);
      JoinedSlices(p, q, k);
      assert Split(p + "." + q) == [head] + Split(tail + "." + q);
      SplitJoined(tail, q);
      Regroup([head], Split(tail), Split(q));
    }
  }

  lemma {:induction false} WalkFurther(v: Value, a: seq<string>, b: seq<string>)
    ensures Walk(v, a + b) == (if Walk(v, a).None? then None else Walk(Walk(v, a).value, b))
  {
    if a == [] {
      assert a + b == b;
    } else {
      assert (a + b)[0] == a[0] && (a + b)[1..] == a[1..] + b;
      if Get(v, a[0]).Some? {
        WalkFurther(Get(v, a[0]).value, a[1..], b);
      }
    }
  }

  /** Looking up a joined path is looking up its second half in what the first half finds. */
  lemma LookupComposes(v: Value, p: string, q: string)
    ensures Lookup(v, p + "." + q) == (if Lookup(v, p).None? then None else Lookup(Lookup(v, p).value, q))
  {
    SplitJoined(p, q);
    WalkFurther(v, Split(p), Split(q));
  }

  // ---- Where the fields of an event are found ------------------------------

  lemma {:induction false} FindAppend(a: seq<Field>, b: seq<Field>, key: string)
    ensures FindField(a + b, key) == if FindField(a, key).Some? then FindField(a, key) else FindField(b, key)
  {
    if a == [] {
      assert a + b == b;
    } else {
      assert (a + b)[0] == a[0] && (a + b)[1..] == a[1..] + b;
      FindAppend(a[1..], b, key);
    }
  }

  function Either(a: Option<Value>, b: Option<Value>): Option<Value> {
    if a.Some? then a else b
  }

  lemma FindInParts(a: seq<Field>, b: seq<Field>, c: seq<Field>, d: seq<Field>, key: string)
    ensures FindField(a + b + c + d, key)
         == Either(FindField(a, key), Either(FindField(b, key), Either(FindField(c, key), FindField(d, key))))
  {
    FindAppend(a + b + c, d, key);
    FindAppend(a + b, c, key);
    FindAppend(a, b, key);
  }

  lemma PlainPath(v: Value, key: string)
    requires '.' !in key
    ensures Lookup(v, key) == Get(v, key)
  {
    assert FirstDot(key) == |key|;
    assert Split(key) == [key] && [key][1..] == [];
    if Get(v, key).Some? {
      assert Walk(Get(v, key).value, []) == Get(v, key);
    }
  }

  lemma TwoKeys(v: Value, p: string, q: string)
    requires '.' !in p && '.' !in q
    ensures Lookup(v, p + "." + q) == if Get(v, p).None? then None else Get(Get(v, p).value, q)
  {
    LookupComposes(v, p, q);
    PlainPath(v, p);
    if Get(v, p).Some? {
      PlainPath(Get(v, p).value, q);
    }
  }

  function TextOf(o: Option<string>): Option<Value> {
    if o.Some? then Some(Str(o.value)) else None
  }

  lemma TextFound(key: string, o: Option<string>)
    ensures FindField(Text(key, o), key) == TextOf(o)
    ensures forall other :: other != key ==> FindField(Text(key, o), other).None?
  {
  }

  lemma ActorFound(a: Actor)
    ensures var v := ActorFields(Some(a))[0].value;
            && Get(v, "type") == Some(Str(a.kind)) && Get(v, "id") == TextOf(a.id)
            && Get(v, "name") == TextOf(a.name) && Get(v, "email") == TextOf(a.email)
  {
    var kind := [Field("type", Str(a.kind))];
    TextFound("id", a.id);
    TextFound("name", a.name);
    TextFound("email", a.email);
    FindInParts(kind, Text("id", a.id), Text("name", a.name), Text("email", a.email), "type");
    FindInParts(kind, Text("id", a.id), Text("name", a.name), Text("email", a.email), "id");
    FindInParts(kind, Text("id", a.id), Text("name", a.name), Text("email", a.email), "name");
    FindInParts(kind, Text("id", a.id), Text("name", a.name), Text("email", a.email), "email");
  }

  lemma EntityFound(e: Entity)
    ensures var v := EntityFields(Some(e))[0].value;
            Get(v, "type") == Some(Str(e.kind)) && Get(v, "id") == TextOf(e.id) && Get(v, "name") == TextOf(e.name)
  {
    var kind := [Field("type", Str(e.kind))];
    TextFound("id", e.id);
    TextFound("name", e.name);
    NilRight(kind + Text("id", e.id) + Text("name", e.name));
    FindInParts(kind, Text("id", e.id), Text("name", e.name), [], "type");
    FindInParts(kind, Text("id", e.id), Text("name", e.name), [], "id");
    FindInParts(kind, Text("id", e.id), Text("name", e.name), [], "name");
  }

  lemma ContextFound(c: Context)
    ensures var v := ContextFields(Some(c))[0].value;
            Get(v, "ip") == TextOf(c.ip) && Get(v, "ua") == TextOf(c.ua) && Get(v, "location") == c.location
  {
    var place := LocationFields(c.location);
    TextFound("ip", c.ip);
    TextFound("ua", c.ua);
    NilRight(Text("ip", c.ip) + Text("ua", c.ua) + place);
    FindInParts(Text("ip", c.ip), Text("ua", c.ua), place, [], "ip");
    FindInParts(Text("ip", c.ip), Text("ua", c.ua), place, [], "ua");
    FindInParts(Text("ip", c.ip), Text("ua", c.ua), place, [], "location");
  }

  lemma HeadInSlack(head: seq<Field>, a: seq<Field>, b: seq<Field>, c: seq<Field>, key: string, value: Value)
    requires FindField(head, key) == Some(value)
    ensures FindField(head + a + b + c, key) == Some(value)
  {
    hide FindField;
    FindInParts(head, a, b, c, key);
  }

  lemma PartsInSlack(head: seq<Field>, a: seq<Field>, b: seq<Field>, c: seq<Field>, key: string)
    requires FindField(head, key).None?
    ensures FindField(head + a + b + c, key) == Either(FindField(a, key), Either(FindField(b, key), FindField(c, key)))
  {
    hide FindField;
    FindInParts(head, a, b, c, key);
  }

  lemma SlackFound(e: NormalizedEvent)
    ensures var v := Obj(SlackFields(e));
            && Get(v, "source") == Some(Str(SourceName(e.source)))
            && Get(v, "action") == Some(Str(e.action)) && Get(v, "event_id") == Some(Str(e.eventId))
            && Get(v, "actor") == (if e.actor.Some? then Some(ActorFields(e.actor)[0].value) else None)
            && Get(v, "entity") == (if e.entity.Some? then Some(EntityFields(e.entity)[0].value) else None)
            && Get(v, "context") == (if e.context.Some? then Some(ContextFields(e.context)[0].value) else None)
  {
    var head := [Field("source", Str(SourceName(e.source))), Field("action", Str(e.action)), Field("event_id", Str(e.eventId))];
    var actor, entity, context := ActorFields(e.actor), EntityFields(e.entity), ContextFields(e.context);
    HeadFound(head, "actor");
    HeadFound(head, "entity");
    HeadFound(head, "context");
    KeyedFound(actor, "actor", "entity");
    KeyedFound(actor, "actor", "context");
    KeyedFound(entity, "entity", "actor");
    KeyedFound(entity, "entity", "context");
    KeyedFound(context, "context", "actor");
    KeyedFound(context, "context", "entity");
    assert SlackFields(e) == head + actor + entity + context;
    hide FindField, SlackFields, ActorFields, EntityFields, ContextFields;
    HeadInSlack(head, actor, entity, context, "source", head[0].value);
    HeadInSlack(head, actor, entity, context, "action", head[1].value);
    HeadInSlack(head, actor, entity, context, "event_id", head[2].value);
    PartsInSlack(head, actor, entity, context, "actor");
    PartsInSlack(head, actor, entity, context, "entity");
    PartsInSlack(head, actor, entity, context, "context");
  }

  lemma KeyedFound(fields: seq<Field>, key: string, other: string)
    requires Keyed(fields, key) && other != key
    ensures FindField(fields, key) == if fields == [] then None else Some(fields[0].value)
    ensures FindField(fields, other).None?
  {
  }

  lemma HeadFound(head: seq<Field>, other: string)
    requires |head| == 3 && head[0].key == "source" && head[1].key == "action" && head[2].key == "event_id"
    requires other != "source" && other != "action" && other != "event_id"
    ensures FindField(head, "source") == Some(head[0].value) && FindField(head, "action") == Some(head[1].value)
    ensures FindField(head, "event_id") == Some(head[2].value) && FindField(head, other).None?
  {
    FindAt(head, 0);
    FindAt(head, 1);
    FindAt(head, 2);
    assert head[1..][1..][1..] == [];
    assert FindField(head, other) == FindField(head[1..], other) == FindField(head[1..][1..], other);
  }

  lemma TopFound(e: NormalizedEvent)
    ensures var v := ToValue(e);
            && Get(v, "@timestamp") == Some(Str(e.timestamp)) && Get(v, "slack") == Some(Obj(SlackFields(e)))
            && Get(v, "severity") == Some(Str(SeverityName(e.severity))) && Get(v, "raw") == Some(e.raw)
  {
    var fields := ToValue(e).fields;
    hide SlackFields;
    FindAt(fields, 0);
    FindAt(fields, 1);
    FindAt(fields, 2);
    FindAt(fields, 3);
  }

  lemma ThreeKeys(v: Value, p: string, q: string, r: string)
    requires '.' !in p && '.' !in q && '.' !in r
    ensures Lookup(v, p + "." + q + "." + r) ==
              if Get(v, p).None? || Get(Get(v, p).value, q).None? then None else Get(Get(Get(v, p).value, q).value, r)
  {
    LookupComposes(v, p + "." + q, r);
    TwoKeys(v, p, q);
    if Lookup(v, p + "." + q).Some? {
      PlainPath(Lookup(v, p + "." + q).value, r);
    }
  }

  /** The severity is found under its name in lower case, and the source under the name that
      allow-lists have, too. */
  lemma NamesFound(e: NormalizedEvent)
    ensures Lookup(ToValue(e), "severity") == Some(Str(
              match e.severity
              case Info => "info" case Low => "low" case Medium => "medium" case High => "high" case Critical => "critical"))
    ensures Lookup(ToValue(e), "slack.source") == Some(Str(
              match e.source
              case Audit => "audit" case Events => "events" case AccessLogs => "accesslogs" case WebInventory => "webinventory"))
  {
    hide Lookup, Get, ToValue, SlackFields;
    TopFound(e);
    SlackFound(e);
    PlainPath(ToValue(e), "severity");
    TwoKeys(ToValue(e), "slack", "source");
    assert "slack" + "." + "source" == "slack.source";
  }

  /** The other fields that every event has. */
  lemma FieldsFound(e: NormalizedEvent)
    ensures Lookup(ToValue(e), "@timestamp") == Some(Str(e.timestamp))
    ensures Lookup(ToValue(e), "slack.action") == Some(Str(e.action))
    ensures Lookup(ToValue(e), "slack.event_id") == Some(Str(e.eventId))
    ensures Lookup(ToValue(e), "raw") == Some(e.raw)
  {
    hide Lookup, Get, ToValue, SlackFields;
    var v := ToValue(e);
    TopFound(e);
    SlackFound(e);
    PlainPath(v, "@timestamp");
    PlainPath(v, "raw");
    TwoKeys(v, "slack", "action");
    TwoKeys(v, "slack", "event_id");
    assert "slack" + "." + "action" == "slack.action" && "slack" + "." + "event_id" == "slack.event_id";
  }

  /** A path below `raw` is looked up in the payload as Slack sent it. */
  lemma RawFound(e: NormalizedEvent, path: string)
    ensures Lookup(ToValue(e), "raw." + path) == Lookup(e.raw, path)
  {
    hide Lookup, ToValue;
    FieldsFound(e);
    LookupComposes(ToValue(e), "raw", path);
    assert "raw" + "." + path == "raw." + path;
  }

  /** The optional ones are found exactly if they are there. */
  lemma ActorPaths(e: NormalizedEvent)
    ensures var v, a := ToValue(e), e.actor;
            && (Lookup(v, "slack.actor").Some? <==> a.Some?)
            && Lookup(v, "slack.actor.type") == (if a.Some? then Some(Str(a.value.kind)) else None)
            && Lookup(v, "slack.actor.id") == (if a.Some? then TextOf(a.value.id) else None)
            && Lookup(v, "slack.actor.name") == (if a.Some? then TextOf(a.value.name) else None)
            && Lookup(v, "slack.actor.email") == (if a.Some? then TextOf(a.value.email) else None)
  {
    hide Lookup, Get, ToValue, SlackFields, ActorFields, EntityFields, ContextFields, TextOf;
    var v := ToValue(e);
    TopFound(e);
    SlackFound(e);
    if e.actor.Some? {
      ActorFound(e.actor.value);
    }
    TwoKeys(v, "slack", "actor");
    ThreeKeys(v, "slack", "actor", "type");
    ThreeKeys(v, "slack", "actor", "id");
    ThreeKeys(v, "slack", "actor", "name");
    ThreeKeys(v, "slack", "actor", "email");
    assert "slack" + "." + "actor" == "slack.actor";
    assert "slack.actor" + "." + "type" == "slack.actor.type" && "slack.actor" + "." + "id" == "slack.actor.id";
    assert "slack.actor" + "." + "name" == "slack.actor.name" && "slack.actor" + "." + "email" == "slack.actor.email";
  }

  lemma EntityPaths(e: NormalizedEvent)
    ensures var v, x := ToValue(e), e.entity;
            && (Lookup(v, "slack.entity").Some? <==> x.Some?)
            && Lookup(v, "slack.entity.type") == (if x.Some? then Some(Str(x.value.kind)) else None)
            && Lookup(v, "slack.entity.id") == (if x.Some? then TextOf(x.value.id) else None)
            && Lookup(v, "slack.entity.name") == (if x.Some? then TextOf(x.value.name) else None)
  {
    hide Lookup, Get, ToValue, SlackFields, ActorFields, EntityFields, ContextFields, TextOf;
    var v := ToValue(e);
    TopFound(e);
    SlackFound(e);
    if e.entity.Some? {
      EntityFound(e.entity.value);
    }
    TwoKeys(v, "slack", "entity");
    ThreeKeys(v, "slack", "entity", "type");
    ThreeKeys(v, "slack", "entity", "id");
    ThreeKeys(v, "slack", "entity", "name");
    assert "slack" + "." + "entity" == "slack.entity" && "slack.entity" + "." + "type" == "slack.entity.type";
    assert "slack.entity" + "." + "id" == "slack.entity.id" && "slack.entity" + "." + "name" == "slack.entity.name";
  }

  lemma ContextPaths(e: NormalizedEvent)
    ensures var v, c := ToValue(e), e.context;
            && (Lookup(v, "slack.context").Some? <==> c.Some?)
            && Lookup(v, "slack.context.ip") == (if c.Some? then TextOf(c.value.ip) else None)
            && Lookup(v, "slack.context.ua") == (if c.Some? then TextOf(c.value.ua) else None)
            && Lookup(v, "slack.context.location") == (if c.Some? then c.value.location else None)
  {
    hide Lookup, Get, ToValue, SlackFields, ActorFields, EntityFields, ContextFields, TextOf;
    var v := ToValue(e);
    TopFound(e);
    SlackFound(e);
    if e.context.Some? {
      ContextFound(e.context.value);
    }
    TwoKeys(v, "slack", "context");
    ThreeKeys(v, "slack", "context", "ip");
    ThreeKeys(v, "slack", "context", "ua");
    ThreeKeys(v, "slack", "context", "location");
    assert "slack" + "." + "context" == "slack.context" && "slack.context" + "." + "ip" == "slack.context.ip";
    assert "slack.context" + "." + "ua" == "slack.context.ua" && "slack.context" + "." + "location" == "slack.context.location";
  }

  lemma TextUnique(a: Option<string>, b: Option<string>)
    requires TextOf(a) == TextOf(b)
    ensures a == b
  {
  }

  lemma ActorUnique(e: NormalizedEvent, f: NormalizedEvent)
    requires ToValue(e) == ToValue(f)
    ensures e.actor == f.actor
  {
    ActorPaths(e);
    ActorPaths(f);
    hide Lookup, ToValue, TextOf;
    if e.actor.Some? {
      TextUnique(e.actor.value.id, f.actor.value.id);
      TextUnique(e.actor.value.name, f.actor.value.name);
      TextUnique(e.actor.value.email, f.actor.value.email);
    }
  }

  lemma EntityUnique(e: NormalizedEvent, f: NormalizedEvent)
    requires ToValue(e) == ToValue(f)
    ensures e.entity == f.entity
  {
    EntityPaths(e);
    EntityPaths(f);
    hide Lookup, ToValue, TextOf;
    if e.entity.Some? {
      TextUnique(e.entity.value.id, f.entity.value.id);
      TextUnique(e.entity.value.name, f.entity.value.name);
    }
  }

  lemma ContextUnique(e: NormalizedEvent, f: NormalizedEvent)
    requires ToValue(e) == ToValue(f)
    ensures e.context == f.context
  {
    ContextPaths(e);
    ContextPaths(f);
    hide Lookup, ToValue, TextOf;
    if e.context.Some? {
      TextUnique(e.context.value.ip, f.context.value.ip);
      TextUnique(e.context.value.ua, f.context.value.ua);
    }
  }

  /** Events with the same JSON value are the same, absent fields included: each field can be
      looked up again. */
  lemma ToValueUnique(e: NormalizedEvent, f: NormalizedEvent)
    requires ToValue(e) == ToValue(f)
    ensures e == f
  {
    FieldsFound(e);
    FieldsFound(f);
    TopFound(e);
    TopFound(f);
    SlackFound(e);
    SlackFound(f);
    ActorUnique(e, f);
    EntityUnique(e, f);
    ContextUnique(e, f);
    hide Lookup, ToValue, SlackFields;
    SourceNameUnique(e.source, f.source);
    SeverityNameUnique(e.severity, f.severity);
  }
}
