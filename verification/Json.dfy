/** JSON values and the compact text that the serializer writes for them. */
module Json {
  import opened Wrappers

  /** Numbers are kept as the text the serializer writes for them. */
  predicate NumeralText(s: string) {
    s != "" && forall i :: 0 <= i < |s| ==> NumeralChar(s[i])
  }

  predicate NumeralChar(c: char) {
    '0' <= c <= '9' || c == '-' || c == '+' || c == '.' || c == 'e' || c == 'E'
  }

  type Numeral = s: string | NumeralText(s) witness "0"

  datatype Field = Field(key: string, value: Value)

  datatype Value =
    | Null
    | Bool(b: bool)
    | Num(text: Numeral)
    | Str(s: string)
    | Arr(items: seq<Value>)
    | Obj(fields: seq<Field>)

  /** The value stored under a key of an object; nothing for any other value. */
  function Get(v: Value, key: string): Option<Value> {
    if v.Obj? then FindField(v.fields, key) else None
  }

  function FindField(fields: seq<Field>, key: string): (r: Option<Value>)
    ensures r.Some? ==> Field(key, r.value) in fields
  {
    if fields == [] then None
    else if fields[0].key == key then Some(fields[0].value)
    else FindField(fields[1..], key)
  }

  /** Equality of values, in which the order of an object's keys does not count. */
  predicate Same(a: Value, b: Value) {
    match (a, b)
    case (Arr(xs), Arr(ys)) =>
      |xs| == |ys| && forall i :: 0 <= i < |xs| ==> Same(xs[i], ys[i])
    case (Obj(fs), Obj(gs)) =>
      |fs| == |gs| && forall i :: 0 <= i < |fs| ==>
        var g := FindField(gs, fs[i].key);
        g.Some? && Same(fs[i].value, g.value)
    case _ => a == b
  }

  // ---- Laws of equality ----------------------------------------------------

  lemma {:induction false} FindAt(fields: seq<Field>, i: nat)
    requires i < |fields| && forall j :: 0 <= j < i ==> fields[j].key != fields[i].key
    ensures FindField(fields, fields[i].key) == Some(fields[i].value)
  {
    if i > 0 {
      FindAt(fields[1..], i - 1);
    }
  }

  predicate KeysDiffer(fields: seq<Field>) {
    forall i, j :: 0 <= i < j < |fields| ==> fields[i].key != fields[j].key
  }

  /** No object within the value has a key twice, as is so for every parsed or serialized one. */
  predicate Proper(v: Value) {
    match v
    case Arr(items) => forall i :: 0 <= i < |items| ==> Proper(items[i])
    case Obj(fields) => KeysDiffer(fields) && forall i :: 0 <= i < |fields| ==> Proper(fields[i].value)
    case _ => true
  }

  lemma {:induction false} SameReflexive(v: Value)
    requires Proper(v)
    ensures Same(v, v)
  {
    match v
    case Arr(items) =>
      forall i | 0 <= i < |items| ensures Same(items[i], items[i]) {
        SameReflexive(items[i]);
      }
    case Obj(fields) =>
      forall i | 0 <= i < |fields|
        ensures FindField(fields, fields[i].key).Some?
                && Same(fields[i].value, FindField(fields, fields[i].key).value)
      {
        FindAt(fields, i);
        SameReflexive(fields[i].value);
      }
    case _ =>
  }

  function Keys(fields: seq<Field>): set<string> {
    set i | 0 <= i < |fields| :: fields[i].key
  }

  lemma KeysOfRest(fields: seq<Field>)
    requires KeysDiffer(fields) && fields != []
    ensures Keys(fields) == {fields[0].key} + Keys(fields[1..]) && fields[0].key !in Keys(fields[1..])
  {
    var rest := fields[1..];
    forall i | 0 < i < |fields| ensures fields[i].key in Keys(rest) {
      assert rest[i - 1] == fields[i];
    }
    forall k | k in Keys(rest) ensures k in Keys(fields) && k != fields[0].key {
      var i :| 0 <= i < |rest| && rest[i].key == k;
      assert fields[i + 1].key == k;
    }
  }

  lemma {:induction false} AsManyKeys(fields: seq<Field>)
    requires KeysDiffer(fields)
    ensures |Keys(fields)| == |fields|
  {
    if fields != [] {
      KeysOfRest(fields);
      assert KeysDiffer(fields[1..]);
      AsManyKeys(fields[1..]);
      hide Keys;
    }
  }

  /** Of two objects with as many keys, if one has all keys of the other, so has the other. */
  lemma SameKeys(fs: seq<Field>, gs: seq<Field>)
    requires KeysDiffer(fs) && KeysDiffer(gs) && |fs| == |gs|
    requires forall i :: 0 <= i < |fs| ==> FindField(gs, fs[i].key).Some?
    ensures Keys(fs) == Keys(gs)
  {
    AsManyKeys(fs);
    AsManyKeys(gs);
    forall k | k in Keys(fs) ensures k in Keys(gs) {
      var i :| 0 <= i < |fs| && fs[i].key == k;
      var g := Field(k, FindField(gs, k).value);
      var j :| 0 <= j < |gs| && gs[j] == g;
    }
    var missing := Keys(gs) - Keys(fs);
    assert Keys(gs) == Keys(fs) + missing;
  }

  lemma {:induction false} SameSymmetric(a: Value, b: Value)
    requires Proper(a) && Proper(b) && Same(a, b)
    ensures Same(b, a)
  {
    match (a, b)
    case (Arr(xs), Arr(ys)) =>
      forall i | 0 <= i < |ys| ensures Same(ys[i], xs[i]) {
        SameSymmetric(xs[i], ys[i]);
      }
    case (Obj(fs), Obj(gs)) =>
      SameKeys(fs, gs);
      forall j | 0 <= j < |gs|
        ensures FindField(fs, gs[j].key).Some? && Same(gs[j].value, FindField(fs, gs[j].key).value)
      {
        assert gs[j].key in Keys(fs);
        var i :| 0 <= i < |fs| && fs[i].key == gs[j].key;
        FindAt(fs, i);
        FindAt(gs, j);
        SameSymmetric(fs[i].value, gs[j].value);
      }
    case _ =>
  }

  /** The order of the keys does not count. */
  lemma ReorderedIsSame(fs: seq<Field>, gs: seq<Field>)
    requires Proper(Obj(fs)) && Proper(Obj(gs)) && |fs| == |gs| && forall f :: f in fs ==> f in gs
    ensures Same(Obj(fs), Obj(gs))
  {
    forall i | 0 <= i < |fs|
      ensures FindField(gs, fs[i].key).Some? && Same(fs[i].value, FindField(gs, fs[i].key).value)
    {
      assert fs[i] in fs;
      var j :| 0 <= j < |gs| && gs[j] == fs[i];
      FindAt(gs, j);
      SameReflexive(fs[i].value);
    }
  }

  /** Values that are the same are of one kind; those that hold no others are equal. */
  lemma SameKind(a: Value, b: Value)
    requires Same(a, b)
    ensures (a.Arr? <==> b.Arr?) && (a.Obj? <==> b.Obj?)
    ensures !a.Arr? && !a.Obj? ==> a == b
  {
  }

  // ---- Text ----------------------------------------------------------------

  function Hex(n: nat): char
    requires n < 16
  {
    "0123456789abcdef"[n]
  }

  /** String escapes of section 7 of RFC 8259, in their short form where there is one. */
  function Escape(c: char): string {
    var u := c as int;
    if c == '\"' then "\\\""
    else if c == '\\' then "\\\\"
    else if u == 8 then "\\b"
    else if u == 9 then "\\t"
    else if u == 10 then "\\n"
    else if u == 12 then "\\f"
    else if u == 13 then "\\r"
    else if u < 0x20 then "\\u00" + [Hex(u / 16), Hex(u % 16)]
    else [c]
  }

  function EscapeAll(s: string): string {
    if s == "" then "" else Escape(s[0]) + EscapeAll(s[1..])
  }

  function Quote(s: string): string {
    "\"" + EscapeAll(s) + "\""
  }

  function Render(v: Value): string
    decreases v, 0
  {
    match v
    case Null => "null"
    case Bool(b) => if b then "true" else "false"
    case Num(text) => text
    case Str(s) => Quote(s)
    case Arr(items) => "[" + RenderItems(items) + "]"
    case Obj(fields) => "{" + RenderFields(fields) + "}"
  }

  function RenderItems(items: seq<Value>): string
    decreases items, 0
  {
    if items == [] then ""
    else if |items| == 1 then Render(items[0])
    else Render(items[0]) + "," + RenderItems(items[1..])
  }

  function RenderFields(fields: seq<Field>): string
    decreases fields, 0
  {
    if fields == [] then ""
    else
      var head := Quote(fields[0].key) + ":" + Render(fields[0].value);
      if |fields| == 1 then head else head + "," + RenderFields(fields[1..])
  }

  // ---- No control characters -----------------------------------------------

  predicate Printable(s: string) {
    forall i :: 0 <= i < |s| ==> ' ' <= s[i]
  }

  lemma EscapePrintable(c: char)
    ensures Printable(Escape(c))
  {
  }

  lemma {:induction false} EscapeAllPrintable(s: string)
    ensures Printable(EscapeAll(s))
  {
    if s != "" {
      EscapePrintable(s[0]);
      EscapeAllPrintable(s[1..]);
    }
  }

  lemma QuotePrintable(s: string)
    ensures Printable(Quote(s))
  {
    EscapeAllPrintable(s);
  }

  /** JSON text never holds a control character, a raw line break least of all. */
  lemma {:induction false} RenderPrintable(v: Value)
    ensures Printable(Render(v))
    decreases v, 0
  {
    match v {
      case Str(s) => QuotePrintable(s);
      case Arr(items) => ItemsPrintable(items);
      case Obj(fields) => FieldsPrintable(fields);
      case _ =>
    }
  }

  lemma {:induction false} ItemsPrintable(items: seq<Value>)
    ensures Printable(RenderItems(items))
    decreases items, 0
  {
    if items != [] {
      RenderPrintable(items[0]);
      ItemsPrintable(items[1..]);
    }
  }

  lemma {:induction false} FieldsPrintable(fields: seq<Field>)
    ensures Printable(RenderFields(fields))
    decreases fields, 0
  {
    if fields != [] {
      QuotePrintable(fields[0].key);
      RenderPrintable(fields[0].value);
      FieldsPrintable(fields[1..]);
    }
  }

  // ---- Reading it back -----------------------------------------------------

  function Digit(c: char): Option<nat> {
    if '0' <= c <= '9' then Some(c as int - '0' as int)
    else if 'a' <= c <= 'f' then Some(c as int - 'a' as int + 10)
    else if 'A' <= c <= 'F' then Some(c as int - 'A' as int + 10)
    else None
  }

  /** The character that four hexadecimal digits stand for; a surrogate stands for none. */
  function CodePoint(digits: string): Option<char>
    requires |digits| == 4
  {
    var a, b, c, d := Digit(digits[0]), Digit(digits[1]), Digit(digits[2]), Digit(digits[3]);
    if a.None? || b.None? || c.None? || d.None? then None else
      var code := ((a.value * 16 + b.value) * 16 + c.value) * 16 + d.value;
      if code < 0xD800 || 0xE000 <= code < 0x10000 then Some(code as char) else None
  }

  /** The character at the front of the rest of a string, section 7 of RFC 8259, and the
      length of its notation. */
  function Unescape(text: string): (r: Option<(char, nat)>)
    ensures r.Some? ==> 0 < r.value.1 <= |text|
  {
    if text == "" || text[0] < ' ' || text[0] == '"' then None
    else if text[0] != '\\' then Some((text[0], 1))
    else if |text| < 2 then None
    else match text[1]
      case '"' => Some(('"', 2))
      case '\\' => Some(('\\', 2))
      case '/' => Some(('/', 2))
      case 'b' => Some((8 as char, 2))
      case 'f' => Some((12 as char, 2))
      case 'n' => Some((10 as char, 2))
      case 'r' => Some((13 as char, 2))
      case 't' => Some((9 as char, 2))
      case 'u' =>
        if |text| < 6 || CodePoint(text[2..6]).None? then None else Some((CodePoint(text[2..6]).value, 6))
      case _ => None
  }

  /** What is left of a string, up to its closing quote. */
  function ReadString(text: string): (r: Option<(string, string)>)
    ensures r.Some? ==> |r.value.1| < |text|
    decreases |text|
  {
    if text != "" && text[0] == '"' then Some(("", text[1..]))
    else match Unescape(text)
      case None => None
      case Some((c, n)) =>
        match ReadString(text[n..])
        case None => None
        case Some((s, rest)) => Some(([c] + s, rest))
  }

  function NumeralRun(s: string): (n: nat)
    ensures n <= |s| && forall i :: 0 <= i < n ==> NumeralChar(s[i])
  {
    if s == "" || !NumeralChar(s[0]) then 0 else 1 + NumeralRun(s[1..])
  }

  /** A value at the front of a text, section 3 of RFC 8259, without white space, and what
      follows it. */
  function Read(text: string): (r: Option<(Value, string)>)
    ensures r.Some? ==> |r.value.1| < |text|
    decreases |text|, 0
  {
    if "null" <= text then Some((Null, text[4..]))
    else if "true" <= text then Some((Bool(true), text[4..]))
    else if "false" <= text then Some((Bool(false), text[5..]))
    else if "\"" <= text then
      match ReadString(text[1..])
      case None => None
      case Some((s, rest)) => Some((Str(s), rest))
    else if "[]" <= text then Some((Arr([]), text[2..]))
    else if "[" <= text then
      match ReadItems(text[1..])
      case None => None
      case Some((items, rest)) => Some((Arr(items), rest))
    else if "{}" <= text then Some((Obj([]), text[2..]))
    else if "{" <= text then
      match ReadFields(text[1..])
      case None => None
      case Some((fields, rest)) => Some((Obj(fields), rest))
    else
      var n := NumeralRun(text);
      if n == 0 then None else Some((Num(text[..n]), text[n..]))
  }

  /** The items of an array, up to its closing bracket. */
  function ReadItems(text: string): (r: Option<(seq<Value>, string)>)
    ensures r.Some? ==> |r.value.1| < |text|
    decreases |text|, 1
  {
    match Read(text)
    case None => None
    case Some((v, rest)) =>
      if "]" <= rest then Some(([v], rest[1..]))
      else if "," <= rest then
        match ReadItems(rest[1..])
        case None => None
        case Some((items, end)) => Some(([v] + items, end))
      else None
  }

  /** The fields of an object, up to its closing brace. */
  function ReadFields(text: string): (r: Option<(seq<Field>, string)>)
    ensures r.Some? ==> |r.value.1| < |text|
    decreases |text|, 1
  {
    if !("\"" <= text) then None
    else match ReadString(text[1..])
      case None => None
      case Some((key, rest)) =>
        if !(":" <= rest) then None
        else match Read(rest[1..])
          case None => None
          case Some((v, more)) =>
            if "}" <= more then Some(([Field(key, v)], more[1..]))
            else if "," <= more then
              match ReadFields(more[1..])
              case None => None
              case Some((fields, end)) => Some(([Field(key, v)] + fields, end))
            else None
  }

  // ---- What is written is what is read -------------------------------------

  lemma HexDigit(n: nat)
    requires n < 16
    ensures Digit(Hex(n)) == Some(n)
  {
  }

  lemma EscapeInverse(c: char, rest: string)
    ensures Unescape(Escape(c) + rest) == Some((c, |Escape(c)|))
  {
    var text, u := Escape(c) + rest, c as int;
    assert text[0] == Escape(c)[0];
    if |Escape(c)| >= 2 {
      assert text[1] == Escape(c)[1];
    }
    if |Escape(c)| == 6 {
      assert text[2..6] == ['0', '0', Hex(u / 16), Hex(u % 16)];
      HexDigit(u / 16);
      HexDigit(u % 16);
      assert Digit('0') == Some(0);
    }
  }

  lemma Nested(a: string, b: string, c: string, d: string)
    ensures a + b + c + d == a + (b + c + d)
  {
  }

  lemma ReadOneMore(c: char, s: string, more: string, rest: string)
    requires ReadString(more) == Some((s, rest))
    ensures ReadString(Escape(c) + more) == Some(([c] + s, rest))
  {
    EscapeInverse(c, more);
    var text := Escape(c) + more;
    assert text[0] == Escape(c)[0] != '"';
    assert text[|Escape(c)|..] == more;
    hide Escape, Unescape;
  }

  lemma {:induction false} ReadQuoted(s: string, rest: string)
    ensures ReadString(EscapeAll(s) + "\"" + rest) == Some((s, rest))
  {
    if s == "" {
      assert (EscapeAll(s) + "\"" + rest)[1..] == rest;
    } else {
      var more := EscapeAll(s[1..]) + "\"" + rest;
      hide ReadString, Escape;
      assert EscapeAll(s) == Escape(s[0]) + EscapeAll(s[1..]);
      ReadQuoted(s[1..], rest);
      ReadOneMore(s[0], s[1..], more, rest);
      Nested(Escape(s[0]), EscapeAll(s[1..]), "\"", rest);
      hide EscapeAll;
      assert s == [s[0]] + s[1..];
    }
  }

  /** What may follow a value: nothing, or a character that no number contains. */
  predicate Ends(rest: string) {
    rest == "" || !NumeralChar(rest[0])
  }

  lemma {:induction false} RunOfNumeral(n: string, rest: string)
    requires (forall i :: 0 <= i < |n| ==> NumeralChar(n[i])) && Ends(rest)
    ensures NumeralRun(n + rest) == |n|
  {
    if n == "" {
      assert n + rest == rest;
    } else {
      assert (n + rest)[0] == n[0] && (n + rest)[1..] == n[1..] + rest;
      RunOfNumeral(n[1..], rest);
    }
  }

  /** A value can be told by the first character of its text. */
  predicate Opens(v: Value, c: char) {
    match v
    case Null => c == 'n'
    case Bool(b) => c == if b then 't' else 'f'
    case Num(_) => NumeralChar(c)
    case Str(_) => c == '"'
    case Arr(_) => c == '['
    case Obj(_) => c == '{'
  }

  lemma RenderOpens(v: Value)
    ensures Render(v) != "" && Opens(v, Render(v)[0])
  {
  }

  lemma ReadNumeral(n: Numeral, rest: string)
    requires Ends(rest)
    ensures Read(n + rest) == Some((Num(n), rest))
  {
    var text := n + rest;
    RunOfNumeral(n, rest);
    assert text[0] == n[0] && text[..|n|] == n && text[|n|..] == rest;
  }

  lemma ReadText(s: string, rest: string)
    ensures Read(Quote(s) + rest) == Some((Str(s), rest))
  {
    var text := Quote(s) + rest;
    assert text[0] == '"' && text[1..] == EscapeAll(s) + "\"" + rest;
    ReadQuoted(s, rest);
  }

  /** Reading the text of a value gives the value back and stops at its end. */
  lemma {:induction false} ReadRender(v: Value, rest: string)
    requires Ends(rest)
    ensures Read(Render(v) + rest) == Some((v, rest))
    decreases v, 0
  {
    var text := Render(v) + rest;
    match v
    case Null => assert text[..4] == "null" && text[4..] == rest;
    case Bool(true) => assert text[0] == 't' && text[..4] == "true" && text[4..] == rest;
    case Bool(false) => assert text[0] == 'f' && text[..5] == "false" && text[5..] == rest;
    case Num(n) => ReadNumeral(n, rest);
    case Str(s) => ReadText(s, rest);
    case Arr(items) => ReadArray(items, rest);
    case Obj(fields) => ReadObject(fields, rest);
  }

  lemma Emptied(text: string, rest: string, close: char)
    requires close == ']' || close == '}'
    requires text == [if close == ']' then '[' else '{', close] + rest
    ensures Read(text) == Some((if close == ']' then Arr([]) else Obj([]), rest))
  {
    assert text[0] == (if close == ']' then '[' else '{') && text[1] == close;
    assert text[..2] == (if close == ']' then "[]" else "{}") && text[2..] == rest;
  }

  lemma OpenArray(text: string, items: seq<Value>, rest: string)
    requires |text| > 1 && text[0] == '[' && text[1] != ']' && ReadItems(text[1..]) == Some((items, rest))
    ensures Read(text) == Some((Arr(items), rest))
  {
    hide ReadItems;
  }

  lemma {:induction false} ReadArray(items: seq<Value>, rest: string)
    ensures Read("[" + RenderItems(items) + "]" + rest) == Some((Arr(items), rest))
    decreases items, 1
  {
    var text := "[" + RenderItems(items) + "]" + rest;
    if items == [] {
      assert text == "[]" + rest;
      Emptied(text, rest, ']');
    } else {
      RenderOpens(items[0]);
      assert text[1] == Render(items[0])[0];
      hide Read, ReadItems, Render, RenderItems;
      assert text[1..] == RenderItems(items) + "]" + rest;
      ReadRenderItems(items, rest);
      OpenArray(text, items, rest);
    }
  }

  /** How the text of a list goes on after its first element. */
  lemma TextGoesOn(head: string, more: string, close: string, rest: string)
    ensures head + close + rest == head + (close + rest)
    ensures head + "," + more + close + rest == head + ("," + (more + close + rest))
  {
  }

  lemma ItemsText(items: seq<Value>)
    requires items != []
    ensures RenderItems(items) == if |items| == 1 then Render(items[0]) else Render(items[0]) + "," + RenderItems(items[1..])
  {
  }

  lemma FieldsText(fields: seq<Field>)
    requires fields != []
    ensures var head := Quote(fields[0].key) + ":" + Render(fields[0].value);
            RenderFields(fields) == if |fields| == 1 then head else head + "," + RenderFields(fields[1..])
  {
  }

  lemma LastItem(v: Value, rest: string)
    requires Read(Render(v) + ("]" + rest)) == Some((v, "]" + rest))
    ensures ReadItems(Render(v) + ("]" + rest)) == Some(([v], rest))
  {
    hide Render, Read;
    assert ("]" + rest)[1..] == rest;
  }

  lemma NextItem(v: Value, more: seq<Value>, next: string, rest: string)
    requires Read(Render(v) + ("," + next)) == Some((v, "," + next)) && ReadItems(next) == Some((more, rest))
    ensures ReadItems(Render(v) + ("," + next)) == Some(([v] + more, rest))
  {
    hide Render, Read;
    assert ("," + next)[0] == ',' && ("," + next)[1..] == next;
  }

  lemma {:induction false} ReadRenderItems(items: seq<Value>, rest: string)
    requires items != []
    ensures ReadItems(RenderItems(items) + "]" + rest) == Some((items, rest))
    decreases items, 0
  {
    var v, more := items[0], items[1..];
    ItemsText(items);
    TextGoesOn(Render(v), RenderItems(more), "]", rest);
    hide ReadItems, Read, Render, RenderItems;
    if more == [] {
      ReadRender(v, "]" + rest);
      LastItem(v, rest);
      assert items == [v];
    } else {
      var next := RenderItems(more) + "]" + rest;
      ReadRender(v, "," + next);
      ReadRenderItems(more, rest);
      NextItem(v, more, next, rest);
      assert items == [v] + more;
    }
  }

  lemma OpenObject(text: string, fields: seq<Field>, rest: string)
    requires |text| > 1 && text[0] == '{' && text[1] != '}' && ReadFields(text[1..]) == Some((fields, rest))
    ensures Read(text) == Some((Obj(fields), rest))
  {
    hide ReadFields;
  }

  lemma {:induction false} ReadObject(fields: seq<Field>, rest: string)
    ensures Read("{" + RenderFields(fields) + "}" + rest) == Some((Obj(fields), rest))
    decreases fields, 1
  {
    var text := "{" + RenderFields(fields) + "}" + rest;
    if fields == [] {
      assert text == "{}" + rest;
      Emptied(text, rest, '}');
    } else {
      assert text[1] == RenderFields(fields)[0] == '"';
      hide Read, ReadFields, Render, RenderFields;
      assert text[1..] == RenderFields(fields) + "}" + rest;
      ReadRenderFields(fields, rest);
      OpenObject(text, fields, rest);
    }
  }

  lemma SkipQuote(key: string, text: string, end: string)
    ensures ("\"" + key + "\"" + ":" + text + end)[1..] == key + "\"" + (":" + (text + end))
    ensures (":" + (text + end))[1..] == text + end
  {
  }

  lemma ReadField(f: Field, end: string)
    ensures var text := Quote(f.key) + ":" + Render(f.value) + end;
            "\"" <= text && ReadString(text[1..]) == Some((f.key, ":" + (Render(f.value) + end)))
    ensures ":" <= ":" + (Render(f.value) + end) && (":" + (Render(f.value) + end))[1..] == Render(f.value) + end
  {
    SkipQuote(EscapeAll(f.key), Render(f.value), end);
    hide ReadString, Render, EscapeAll;
    ReadQuoted(f.key, ":" + (Render(f.value) + end));
  }

  lemma LastField(f: Field, rest: string)
    requires Read(Render(f.value) + ("}" + rest)) == Some((f.value, "}" + rest))
    ensures ReadFields(Quote(f.key) + ":" + Render(f.value) + ("}" + rest)) == Some(([f], rest))
  {
    ReadField(f, "}" + rest);
    hide ReadString, Render, Quote, Read;
    assert ("}" + rest)[1..] == rest;
  }

  lemma NextField(f: Field, more: seq<Field>, next: string, rest: string)
    requires Read(Render(f.value) + ("," + next)) == Some((f.value, "," + next)) && ReadFields(next) == Some((more, rest))
    ensures ReadFields(Quote(f.key) + ":" + Render(f.value) + ("," + next)) == Some(([f] + more, rest))
  {
    ReadField(f, "," + next);
    hide ReadString, Render, Quote, Read;
    assert ("," + next)[0] == ',' && ("," + next)[1..] == next;
  }

  lemma {:induction false} ReadRenderFields(fields: seq<Field>, rest: string)
    requires fields != []
    ensures ReadFields(RenderFields(fields) + "}" + rest) == Some((fields, rest))
    decreases fields, 0
  {
    var f, more := fields[0], fields[1..];
    var head := Quote(f.key) + ":" + Render(f.value);
    FieldsText(fields);
    TextGoesOn(head, RenderFields(more), "}", rest);
    hide ReadFields, Read, Render, Quote, RenderFields;
    if more == [] {
      ReadRender(f.value, "}" + rest);
      LastField(f, rest);
      assert fields == [f];
    } else {
      var next := RenderFields(more) + "}" + rest;
      ReadRender(f.value, "," + next);
      ReadRenderFields(more, rest);
      NextField(f, more, next, rest);
      assert fields == [f] + more;
    }
  }

  /** So two values with the same text, before a delimiter or the end, are equal. */
  lemma RenderUnique(v: Value, w: Value, a: string, b: string)
    requires Ends(a) && Ends(b) && Render(v) + a == Render(w) + b
    ensures v == w && a == b
  {
    ReadRender(v, a);
    ReadRender(w, b);
  }
}
