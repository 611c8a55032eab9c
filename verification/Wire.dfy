/** The analysisd wire format `1:<location>:<json>` and its unique decoding. */
module Wire {
  import opened Wrappers
  import opened Event
  import Json
  import Framing

  function WireFormat(e: NormalizedEvent): string {
    "1:" + LocationTag(e.source) + ":" + Json.Render(ToValue(e))
  }

  function FirstColon(s: string): (k: nat)
    ensures k <= |s|
    ensures forall i :: 0 <= i < k ==> s[i] != ':'
    ensures k < |s| ==> s[k] == ':'
  {
    if s == "" || s[0] == ':' then 0 else 1 + FirstColon(s[1..])
  }

  /** Split a datagram into location and message; the message may hold colons. */
  function Decode(datagram: string): Option<(string, string)> {
    if |datagram| < 2 || datagram[..2] != "1:" then None else
      var rest := datagram[2..];
      var k := FirstColon(rest);
      if k == |rest| then None else Some((rest[..k], rest[k + 1..]))
  }

  lemma TagHasNoColon(tag: SourceTag)
    ensures ':' !in LocationTag(tag)
  {
  }

  lemma TagUnique(a: SourceTag, b: SourceTag)
    requires LocationTag(a) == LocationTag(b)
    ensures a == b
  {
    var x, y := LocationTag(a), LocationTag(b);
    assert |x| == |y| && x[6] == y[6];
  }

  /** A datagram gives back its location and its JSON text. */
  lemma DecodeWire(e: NormalizedEvent)
    ensures Decode(WireFormat(e)) == Some((LocationTag(e.source), Json.Render(ToValue(e))))
  {
    var tag, json := LocationTag(e.source), Json.Render(ToValue(e));
    var datagram := WireFormat(e);
    hide Json.Render, ToValue;
    var rest := tag + ":" + json;
    assert datagram == "1:" + rest;
    assert datagram[..2] == "1:" && datagram[2..] == rest;
    TagHasNoColon(e.source);
    assert FirstColon(rest) == |tag| by {
      assert rest[|tag|] == ':';
      assert forall i :: 0 <= i < |tag| ==> rest[i] == tag[i];
    }
    assert rest[..|tag|] == tag && rest[|tag| + 1..] == json;
  }

  /** A datagram is the queue number, the source's location, and JSON that reads as the event;
      splitting it at the first colons finds them. */
  lemma WireSays(e: NormalizedEvent) returns (json: string)
    ensures var location := match e.source
                            case Audit => "slack-audit" case Events => "slack-events"
                            case AccessLogs => "slack-access" case WebInventory => "slack-inventory";
            WireFormat(e) == "1:" + location + ":" + json && Decode(WireFormat(e)) == Some((location, json))
    ensures Json.Read(json) == Some((ToValue(e), ""))
  {
    DecodeWire(e);
    json := Json.Render(ToValue(e));
    hide Json.Read, Json.Render, ToValue, Decode;
    NilRight(json);
    Json.ReadRender(ToValue(e), "");
  }

  /** Two events with the same datagram are the same. */
  lemma WireUnique(e: NormalizedEvent, f: NormalizedEvent)
    requires WireFormat(e) == WireFormat(f)
    ensures e == f
  {
    DecodeWire(e);
    DecodeWire(f);
    var x, y := Json.Render(ToValue(e)), Json.Render(ToValue(f));
    assert x + "" == y + "";
    Json.RenderUnique(ToValue(e), ToValue(f), "", "");
    ToValueUnique(e, f);
  }

  /** A datagram is one non-blank line, so a spool segment keeps it whole. */
  lemma WireFrameable(e: NormalizedEvent)
    ensures Framing.Frameable(WireFormat(e))
  {
    var tag, json := LocationTag(e.source), Json.Render(ToValue(e));
    Json.RenderPrintable(ToValue(e));
    assert Json.Printable(tag);
    var w := WireFormat(e);
    assert w[0] == '1';
    assert Json.Printable(w);
    assert '\n' < ' ' && '\r' < ' ';
  }
}
