/** The newline-delimited JSON file sink with its rotation by size. File system and
    clock answer as the emission says; a write that fails leaves nothing behind. */
module JsonFile {
  import opened Wrappers
  import Disk
  import Event
  import Json

  type Byte = n: nat | n < 256
  type Bytes = seq<Byte>

  const LF: Byte := 10
  const U64_MAX: nat := 0xFFFF_FFFF_FFFF_FFFF
  const MEBIBYTE: nat := 1024 * 1024

  function Saturate(n: nat): nat { if n < U64_MAX then n else U64_MAX }

  // ---- Lines ---------------------------------------------------------------

  /** UTF-8, section 3 of RFC 3629. */
  function EncodeChar(c: char): Bytes {
    var u := c as int;
    if u < 0x80 then [u]
    else if u < 0x800 then [0xC0 + u / 0x40, 0x80 + u % 0x40]
    else if u < 0x1_0000 then [0xE0 + u / 0x1000, 0x80 + u / 0x40 % 0x40, 0x80 + u % 0x40]
    else [0xF0 + u / 0x4_0000, 0x80 + u / 0x1000 % 0x40, 0x80 + u / 0x40 % 0x40, 0x80 + u % 0x40]
  }

  function Encode(s: string): Bytes {
    if s == "" then [] else EncodeChar(s[0]) + Encode(s[1..])
  }

  /** The value of a byte that continues a character. */
  function Continues(b: Byte): Option<nat> {
    if 0x80 <= b < 0xC0 then Some(b - 0x80) else None
  }

  function ToChar(u: nat, least: nat): Option<char> {
    if least <= u && (u < 0xD800 || 0xE000 <= u < 0x11_0000) then Some(u as char) else None
  }

  /** The character that the bytes begin with, and the length of its encoding. */
  function DecodeChar(bytes: Bytes): (r: Option<(char, nat)>)
    ensures r.Some? ==> 0 < r.value.1 <= |bytes|
  {
    if bytes == [] then None
    else if bytes[0] < 0x80 then Some((bytes[0] as char, 1))
    else if 0xC0 <= bytes[0] < 0xE0 && |bytes| >= 2 then
      var b := Continues(bytes[1]);
      if b.None? then None else
        var c := ToChar((bytes[0] - 0xC0) * 0x40 + b.value, 0x80);
        if c.None? then None else Some((c.value, 2))
    else if 0xE0 <= bytes[0] < 0xF0 && |bytes| >= 3 then
      var b, d := Continues(bytes[1]), Continues(bytes[2]);
      if b.None? || d.None? then None else
        var c := ToChar(((bytes[0] - 0xE0) * 0x40 + b.value) * 0x40 + d.value, 0x800);
        if c.None? then None else Some((c.value, 3))
    else if 0xF0 <= bytes[0] < 0xF8 && |bytes| >= 4 then
      var b, d, e := Continues(bytes[1]), Continues(bytes[2]), Continues(bytes[3]);
      if b.None? || d.None? || e.None? then None else
        var c := ToChar((((bytes[0] - 0xF0) * 0x40 + b.value) * 0x40 + d.value) * 0x40 + e.value, 0x1_0000);
        if c.None? then None else Some((c.value, 4))
    else None
  }

  function Decode(bytes: Bytes): Option<string>
    decreases |bytes|
  {
    if bytes == [] then Some("")
    else match DecodeChar(bytes)
      case None => None
      case Some((c, n)) =>
        match Decode(bytes[n..])
        case None => None
        case Some(s) => Some([c] + s)
  }

  lemma DecodeTwo(c: char, bytes: Bytes)
    requires 0x80 <= c as int < 0x800 && EncodeChar(c) <= bytes
    ensures DecodeChar(bytes) == Some((c, 2))
  {
    var code := EncodeChar(c);
    assert bytes[0] == code[0] && bytes[1] == code[1];
  }

  lemma DecodeThree(c: char, bytes: Bytes)
    requires 0x800 <= c as int < 0x1_0000 && EncodeChar(c) <= bytes
    ensures DecodeChar(bytes) == Some((c, 3))
  {
    var u, code := c as int, EncodeChar(c);
    assert bytes[0] == code[0] && bytes[1] == code[1] && bytes[2] == code[2];
    assert u / 0x40 == u / 0x1000 * 0x40 + u / 0x40 % 0x40;
    assert u == u / 0x40 * 0x40 + u % 0x40;
  }

  lemma DecodeFour(c: char, bytes: Bytes)
    requires 0x1_0000 <= c as int && EncodeChar(c) <= bytes
    ensures DecodeChar(bytes) == Some((c, 4))
  {
    var u, code := c as int, EncodeChar(c);
    assert bytes[0] == code[0] && bytes[1] == code[1] && bytes[2] == code[2] && bytes[3] == code[3];
    assert u / 0x1000 == u / 0x4_0000 * 0x40 + u / 0x1000 % 0x40;
    assert u / 0x40 == u / 0x1000 * 0x40 + u / 0x40 % 0x40;
    assert u == u / 0x40 * 0x40 + u % 0x40;
  }

  lemma DecodeOne(c: char, rest: Bytes)
    ensures DecodeChar(EncodeChar(c) + rest) == Some((c, |EncodeChar(c)|))
  {
    var u, bytes := c as int, EncodeChar(c) + rest;
    assert EncodeChar(c) <= bytes;
    if u < 0x80 {
      assert bytes[0] == u;
    } else if u < 0x800 {
      hide DecodeChar;
      DecodeTwo(c, bytes);
    } else if u < 0x1_0000 {
      hide DecodeChar;
      DecodeThree(c, bytes);
    } else {
      hide DecodeChar;
      DecodeFour(c, bytes);
    }
  }

  /** What is encoded decodes to itself. */
  lemma {:induction false} DecodeEncode(s: string)
    ensures Decode(Encode(s)) == Some(s)
  {
    if s != "" {
      var rest := Encode(s[1..]);
      hide EncodeChar, DecodeChar;
      DecodeOne(s[0], rest);
      DecodeEncode(s[1..]);
      assert (EncodeChar(s[0]) + rest)[|EncodeChar(s[0])|..] == rest;
      assert s == [s[0]] + s[1..];
    }
  }

  function Line(event: Event.NormalizedEvent): Bytes {
    Encode(Json.Render(Event.ToValue(event))) + [LF]
  }

  /** One line feed, and that at the end. */
  predicate OneLine(line: Bytes) {
    line != [] && line[|line| - 1] == LF && LF !in line[..|line| - 1]
  }

  lemma {:induction false} EncodeBreakFree(s: string)
    requires '\n' !in s
    ensures LF !in Encode(s)
  {
    if s != "" {
      assert s[0] in s && forall c :: c in s[1..] ==> c in s;
      EncodeBreakFree(s[1..]);
    }
  }

  /** Up to its line feed a line is UTF-8 for JSON that reads as the event. */
  lemma LineSays(event: Event.NormalizedEvent)
    ensures var line := Line(event);
            && line != []
            && var text := Decode(line[..|line| - 1]);
               text.Some? && Json.Read(text.value) == Some((Event.ToValue(event), ""))
  {
    var text := Json.Render(Event.ToValue(event));
    hide Decode, Encode, Json.Read, Json.Render, Event.ToValue;
    assert Line(event)[..|Line(event)| - 1] == Encode(text);
    DecodeEncode(text);
    NilRight(text);
    Json.ReadRender(Event.ToValue(event), "");
  }

  lemma LineIsOne(event: Event.NormalizedEvent)
    ensures OneLine(Line(event))
  {
    var text := Json.Render(Event.ToValue(event));
    Json.RenderPrintable(Event.ToValue(event));
    EncodeBreakFree(text);
    assert Line(event)[..|Line(event)| - 1] == Encode(text);
  }

  // ---- What one emission does ----------------------------------------------

  /** The rotated files by their time stamp; the file at the configured path, missing
      after a rotation that could not reopen it; and the byte counter. */
  datatype Files = Files(rotated: map<nat, Bytes>, active: Option<Bytes>, written: nat)

  datatype Emission = Emission(line: Bytes, stamp: nat, flushed: bool, renamed: bool, reopened: bool, wrote: bool)

  predicate Due(f: Files, limit: nat) { limit != 0 && f.written >= limit }

  /** The counter is the length of the file, and the file is missing only while a
      rotation is due. */
  predicate Counted(f: Files, limit: nat) {
    limit <= U64_MAX && match f.active
    case Some(content) => f.written == Saturate(|content|)
    case None => Due(f, limit)
  }

  predicate Rotates(f: Files, limit: nat, e: Emission) {
    Due(f, limit) && e.flushed && e.renamed && f.active.Some?
  }

  function Rotate(f: Files, limit: nat, e: Emission): Files {
    if !Rotates(f, limit, e) then f
    else Files(f.rotated[e.stamp := f.active.value],
               if e.reopened then Some([]) else None,
               if e.reopened then 0 else f.written)
  }

  predicate Accepts(f: Files, limit: nat, e: Emission) {
    e.wrote && (Due(f, limit) ==> Rotates(f, limit, e) && e.reopened)
  }

  function Next(f: Files, limit: nat, e: Emission): (g: Files)
    requires Counted(f, limit)
    ensures Counted(g, limit)
  {
    var r := Rotate(f, limit, e);
    if !Accepts(f, limit, e) then r
    else r.(active := Some(r.active.value + e.line), written := Saturate(r.written + |e.line|))
  }

  class JsonFileSink {
    const rotateBytes: nat
    var rotated: map<nat, Bytes>
    var active: Option<Bytes>
    var written: nat

    function State(): Files
      reads this
    {
      Files(rotated, active, written)
    }

    ghost predicate Valid()
      reads this
    {
      Counted(State(), rotateBytes)
    }

    /** An existing file is continued and counts towards the limit. */
    constructor (rotateMb: nat, rotated: map<nat, Bytes>, existing: Option<Bytes>)
      ensures Valid() && this.rotated == rotated
      ensures active == Some(if existing.Some? then existing.value else [])
      ensures rotateBytes == Min(rotateMb * 1_048_576, 0xFFFF_FFFF_FFFF_FFFF)
    {
      var content := if existing.Some? then existing.value else [];
      rotateBytes := Saturate(rotateMb * MEBIBYTE);
      this.rotated := rotated;
      active := Some(content);
      written := Saturate(|content|);
    }

    method MaybeRotate(e: Emission) returns (ok: bool)
      requires Valid()
      modifies this
      ensures Valid() && State() == Rotate(old(State()), rotateBytes, e)
      ensures ok <==> (old(Due(State(), rotateBytes)) ==> old(Rotates(State(), rotateBytes, e)) && e.reopened)
    {
      if rotateBytes == 0 || written < rotateBytes {
        return true;
      }
      if !e.flushed || !e.renamed || active.None? {
        return false;
      }
      rotated := rotated[e.stamp := active.value];
      active := None;
      if !e.reopened {
        return false;
      }
      active := Some([]);
      written := 0;
      ok := true;
    }

    method Emit(event: Event.NormalizedEvent, stamp: nat, flushed: bool, renamed: bool, reopened: bool, wrote: bool)
        returns (ok: bool)
      requires Valid()
      modifies this
      ensures Valid()
      ensures var e := Emission(Line(event), stamp, flushed, renamed, reopened, wrote);
              State() == Next(old(State()), rotateBytes, e) && ok == old(Accepts(State(), rotateBytes, e))
    {
      var line := Line(event);
      var ready := MaybeRotate(Emission(line, stamp, flushed, renamed, reopened, wrote));
      if !ready || !wrote {
        return false;
      }
      active := Some(active.value + line);
      written := Saturate(written + |line|);
      ok := true;
    }
  }

  // ---- Everything on disk --------------------------------------------------

  /** The rotated files, oldest stamp first. */
  ghost function Joined(files: map<nat, Bytes>): Bytes
    decreases |files|
  {
    if files == map[] then [] else
      var m := Disk.Least(files.Keys);
      assert (files - {m}).Keys == files.Keys - {m};
      files[m] + Joined(files - {m})
  }

  function Active(f: Files): Bytes {
    if f.active.Some? then f.active.value else []
  }

  ghost function AllBytes(f: Files): Bytes {
    Joined(f.rotated) + Active(f)
  }

  lemma JoinedSplit(files: map<nat, Bytes>, m: nat)
    requires m in files && forall h :: h in files ==> m <= h
    ensures Joined(files) == files[m] + Joined(files - {m})
  {
  }

  lemma {:induction false} JoinedAppend(files: map<nat, Bytes>, stamp: nat, content: Bytes)
    requires forall h :: h in files ==> h < stamp
    ensures Joined(files[stamp := content]) == Joined(files) + content
    decreases |files|
  {
    var after := files[stamp := content];
    if files == map[] {
      JoinedSplit(after, stamp);
      assert after - {stamp} == map[];
      NilRight(content);
    } else {
      var m := Disk.Least(files.Keys);
      var rest := files - {m};
      assert rest.Keys == files.Keys - {m} && after - {m} == rest[stamp := content];
      JoinedSplit(files, m);
      JoinedSplit(after, m);
      JoinedAppend(rest, stamp, content);
      Regroup(files[m], Joined(rest), content);
    }
  }

  lemma {:induction false} JoinedBag(files: map<nat, Bytes>, h: nat)
    requires h in files
    ensures multiset(Joined(files)) == multiset(files[h]) + multiset(Joined(files - {h}))
    decreases |files|
  {
    var m := Disk.Least(files.Keys);
    JoinedSplit(files, m);
    if m != h {
      var rest := files - {h};
      assert rest - {m} == files - {m} - {h};
      JoinedSplit(rest, m);
      JoinedBag(files - {m}, h);
    }
  }

  /** What an earlier rotated file held whose name the rename takes. */
  function Overwritten(f: Files, limit: nat, e: Emission): Bytes {
    if Rotates(f, limit, e) && e.stamp in f.rotated then f.rotated[e.stamp] else []
  }

  function Written(f: Files, limit: nat, e: Emission): Bytes {
    if Accepts(f, limit, e) then e.line else []
  }

  lemma RotationBytes(f: Files, limit: nat, e: Emission)
    requires Rotates(f, limit, e)
    ensures multiset(AllBytes(Rotate(f, limit, e))) + multiset(Overwritten(f, limit, e)) == multiset(AllBytes(f))
  {
    var after := f.rotated[e.stamp := f.active.value];
    JoinedBag(after, e.stamp);
    assert after - {e.stamp} == f.rotated - {e.stamp};
    if e.stamp in f.rotated {
      JoinedBag(f.rotated, e.stamp);
    } else {
      assert f.rotated - {e.stamp} == f.rotated;
    }
    NilRight(Joined(after));
  }

  /** Exact balance of one emission, for any clock and any failures. */
  lemma EmissionBytes(f: Files, limit: nat, e: Emission)
    requires Counted(f, limit)
    ensures multiset(AllBytes(Next(f, limit, e))) + multiset(Overwritten(f, limit, e))
         == multiset(AllBytes(f)) + multiset(Written(f, limit, e))
  {
    var r := Rotate(f, limit, e);
    if Rotates(f, limit, e) {
      RotationBytes(f, limit, e);
    }
    if Accepts(f, limit, e) {
      Regroup(Joined(r.rotated), r.active.value, e.line);
    }
  }

  /** The rename target is younger than every rotated file there is. */
  predicate FreshStamp(f: Files, limit: nat, e: Emission) {
    Rotates(f, limit, e) ==> forall h :: h in f.rotated ==> h < e.stamp
  }

  lemma EmissionKeepsAll(f: Files, limit: nat, e: Emission)
    requires Counted(f, limit) && FreshStamp(f, limit, e)
    ensures AllBytes(Next(f, limit, e)) == AllBytes(f) + Written(f, limit, e)
  {
    var r := Rotate(f, limit, e);
    if Rotates(f, limit, e) {
      JoinedAppend(f.rotated, e.stamp, f.active.value);
    }
    NilRight(AllBytes(f));
    assert AllBytes(r) == AllBytes(f) by { NilRight(Joined(r.rotated)); }
    if Accepts(f, limit, e) {
      Regroup(Joined(r.rotated), r.active.value, e.line);
    }
  }

  // ---- Whole runs ----------------------------------------------------------

  function RunTo(f: Files, limit: nat, es: seq<Emission>, k: nat): (g: Files)
    requires Counted(f, limit) && k <= |es|
    ensures Counted(g, limit)
  {
    if k == 0 then f else Next(RunTo(f, limit, es, k - 1), limit, es[k - 1])
  }

  /** The lines of the emissions that were reported as successful. */
  function Emitted(f: Files, limit: nat, es: seq<Emission>, k: nat): Bytes
    requires Counted(f, limit) && k <= |es|
  {
    if k == 0 then []
    else Emitted(f, limit, es, k - 1) + Written(RunTo(f, limit, es, k - 1), limit, es[k - 1])
  }

  predicate FreshStamps(f: Files, limit: nat, es: seq<Emission>, k: nat)
    requires Counted(f, limit) && k <= |es|
  {
    k > 0 ==> FreshStamps(f, limit, es, k - 1) && FreshStamp(RunTo(f, limit, es, k - 1), limit, es[k - 1])
  }

  /** With a new time stamp for every rotation, the rotated files in order and the
      file at the path spell out what was there and all that was emitted since. */
  lemma {:induction false} Conservation(f: Files, limit: nat, es: seq<Emission>, k: nat)
    requires Counted(f, limit) && k <= |es| && FreshStamps(f, limit, es, k)
    ensures AllBytes(RunTo(f, limit, es, k)) == AllBytes(f) + Emitted(f, limit, es, k)
  {
    if k == 0 {
      NilRight(AllBytes(f));
    } else {
      Conservation(f, limit, es, k - 1);
      var g, e := RunTo(f, limit, es, k - 1), es[k - 1];
      EmissionKeepsAll(g, limit, e);
      Regroup(AllBytes(f), Emitted(f, limit, es, k - 1), Written(g, limit, e));
    }
  }

  /** The contents of all the rotated files that the run has overwritten. */
  function Lost(f: Files, limit: nat, es: seq<Emission>, k: nat): Bytes
    requires Counted(f, limit) && k <= |es|
  {
    if k == 0 then [] else Lost(f, limit, es, k - 1) + Overwritten(RunTo(f, limit, es, k - 1), limit, es[k - 1])
  }

  lemma BalanceStep(start: Bytes, disk: Bytes, lost: Bytes, emitted: Bytes, after: Bytes, over: Bytes, line: Bytes)
    requires multiset(disk) + multiset(lost) == multiset(start) + multiset(emitted)
    requires multiset(after) + multiset(over) == multiset(disk) + multiset(line)
    ensures multiset(after) + multiset(lost + over) == multiset(start) + multiset(emitted + line)
  {
    var d, l, a, o, n := multiset(disk), multiset(lost), multiset(after), multiset(over), multiset(line);
    assert multiset(lost + over) == l + o && multiset(emitted + line) == multiset(emitted) + n;
    assert a + (l + o) == (a + o) + l && (d + n) + l == (d + l) + n;
    assert multiset(start) + (multiset(emitted) + n) == multiset(start) + multiset(emitted) + n;
  }

  lemma NothingEmitted(f: Files, limit: nat, es: seq<Emission>)
    requires Counted(f, limit)
    ensures RunTo(f, limit, es, 0) == f && Lost(f, limit, es, 0) == Emitted(f, limit, es, 0) == []
  {
  }

  lemma OneEmissionMore(f: Files, limit: nat, es: seq<Emission>, k: nat)
    requires Counted(f, limit) && 0 < k <= |es|
    ensures var g, e := RunTo(f, limit, es, k - 1), es[k - 1];
            && Counted(g, limit)
            && RunTo(f, limit, es, k) == Next(g, limit, e)
            && Lost(f, limit, es, k) == Lost(f, limit, es, k - 1) + Overwritten(g, limit, e)
            && Emitted(f, limit, es, k) == Emitted(f, limit, es, k - 1) + Written(g, limit, e)
  {
  }

  /** Whatever the clock does and whatever fails, what is on disk and what was
      overwritten are together what was there at first and what was emitted. */
  lemma {:induction false} Balance(f: Files, limit: nat, es: seq<Emission>, k: nat)
    requires Counted(f, limit) && k <= |es|
    ensures multiset(AllBytes(RunTo(f, limit, es, k))) + multiset(Lost(f, limit, es, k))
         == multiset(AllBytes(f)) + multiset(Emitted(f, limit, es, k))
  {
    hide *;
    if k == 0 {
      NothingEmitted(f, limit, es);
    } else {
      Balance(f, limit, es, k - 1);
      var g, e := RunTo(f, limit, es, k - 1), es[k - 1];
      OneEmissionMore(f, limit, es, k);
      EmissionBytes(g, limit, e);
      BalanceStep(AllBytes(f), AllBytes(g), Lost(f, limit, es, k - 1), Emitted(f, limit, es, k - 1),
                  AllBytes(RunTo(f, limit, es, k)), Overwritten(g, limit, e), Written(g, limit, e));
    }
  }

  predicate NeverOverwrites(f: Files, limit: nat, es: seq<Emission>, k: nat)
    requires Counted(f, limit) && k <= |es|
  {
    k > 0 ==> NeverOverwrites(f, limit, es, k - 1) && Overwritten(RunTo(f, limit, es, k - 1), limit, es[k - 1]) == []
  }

  lemma {:induction false} LostIff(f: Files, limit: nat, es: seq<Emission>, k: nat)
    requires Counted(f, limit) && k <= |es|
    ensures Lost(f, limit, es, k) == [] <==> NeverOverwrites(f, limit, es, k)
  {
    if k > 0 {
      LostIff(f, limit, es, k - 1);
      var lost := Overwritten(RunTo(f, limit, es, k - 1), limit, es[k - 1]);
      assert |Lost(f, limit, es, k)| == |Lost(f, limit, es, k - 1)| + |lost|;
    }
  }

  /** So no byte is lost in a run exactly when no rotation takes the name of a rotated
      file that is not empty. */
  lemma NothingLostIff(f: Files, limit: nat, es: seq<Emission>, k: nat)
    requires Counted(f, limit) && k <= |es|
    ensures multiset(AllBytes(RunTo(f, limit, es, k))) == multiset(AllBytes(f)) + multiset(Emitted(f, limit, es, k))
            <==> NeverOverwrites(f, limit, es, k)
  {
    Balance(f, limit, es, k);
    LostIff(f, limit, es, k);
    var disk, lost := multiset(AllBytes(RunTo(f, limit, es, k))), multiset(Lost(f, limit, es, k));
    assert |disk + lost| == |disk| + |Lost(f, limit, es, k)|;
  }

  /** Three lines that fill a file each, within one second: the first one is gone. */
  lemma SameSecondLoses(limit: nat, a: Bytes, b: Bytes, c: Bytes, stamp: nat)
    requires 0 < limit <= |a| && limit <= |b| && limit <= U64_MAX
    ensures var es := [Emission(a, stamp, true, true, true, true), Emission(b, stamp, true, true, true, true),
                       Emission(c, stamp, true, true, true, true)];
            var f := Files(map[], Some([]), 0);
            Emitted(f, limit, es, 3) == a + b + c && AllBytes(RunTo(f, limit, es, 3)) == b + c
  {
    var es := [Emission(a, stamp, true, true, true, true), Emission(b, stamp, true, true, true, true),
               Emission(c, stamp, true, true, true, true)];
    var f := Files(map[], Some([]), 0);
    var f1, f2, f3 := RunTo(f, limit, es, 1), RunTo(f, limit, es, 2), RunTo(f, limit, es, 3);
    assert f1 == Files(map[], Some(a), Saturate(|a|)) by { assert [] + a == a; assert RunTo(f, limit, es, 0) == f; }
    assert f2 == Files(map[stamp := a], Some(b), Saturate(|b|)) by { assert [] + b == b; }
    assert f3 == Files(map[stamp := b], Some(c), Saturate(|c|)) by { assert [] + c == c; }
    assert Emitted(f, limit, es, 0) == [] && [] + a == a;
    assert Emitted(f, limit, es, 1) == a;
    assert Emitted(f, limit, es, 2) == a + b;
    JoinedAppend(map[], stamp, b);
    assert map[][stamp := b] == map[stamp := b] && [] + b == b;
  }

  // ---- New stamps in any order ---------------------------------------------

  /** The rename takes a name that no rotated file has. */
  predicate NewStamp(f: Files, limit: nat, e: Emission) {
    Rotates(f, limit, e) ==> e.stamp !in f.rotated
  }

  predicate NewStamps(f: Files, limit: nat, es: seq<Emission>, k: nat)
    requires Counted(f, limit) && k <= |es|
  {
    k > 0 ==> NewStamps(f, limit, es, k - 1) && NewStamp(RunTo(f, limit, es, k - 1), limit, es[k - 1])
  }

  /** The stamps of the rotations of a run, in order. */
  function Stamps(f: Files, limit: nat, es: seq<Emission>, k: nat): seq<nat>
    requires Counted(f, limit) && k <= |es|
  {
    if k == 0 then [] else
      Stamps(f, limit, es, k - 1) + if Rotates(RunTo(f, limit, es, k - 1), limit, es[k - 1]) then [es[k - 1].stamp] else []
  }

  function InTurn(files: map<nat, Bytes>, stamps: seq<nat>): Bytes
    requires forall i :: 0 <= i < |stamps| ==> stamps[i] in files
  {
    if stamps == [] then [] else InTurn(files, stamps[..|stamps| - 1]) + files[stamps[|stamps| - 1]]
  }

  lemma {:induction false} InTurnKept(files: map<nat, Bytes>, stamps: seq<nat>, stamp: nat, content: Bytes)
    requires (forall i :: 0 <= i < |stamps| ==> stamps[i] in files) && stamp !in files
    ensures InTurn(files[stamp := content], stamps) == InTurn(files, stamps)
    decreases |stamps|
  {
    if stamps != [] {
      InTurnKept(files, stamps[..|stamps| - 1], stamp, content);
    }
  }

  lemma InTurnMore(files: map<nat, Bytes>, stamps: seq<nat>, stamp: nat, content: Bytes)
    requires (forall i :: 0 <= i < |stamps| ==> stamps[i] in files) && stamp !in files
    ensures InTurn(files[stamp := content], stamps + [stamp]) == InTurn(files, stamps) + content
  {
    InTurnKept(files, stamps, stamp, content);
    assert (stamps + [stamp])[..|stamps|] == stamps;
  }

  /** The files rotated so far, and those that were there before. */
  ghost predicate Kept(f: Files, g: Files, stamps: seq<nat>) {
    && (forall h :: h in g.rotated <==> h in f.rotated || h in stamps)
    && (forall h :: h in f.rotated ==> g.rotated[h] == f.rotated[h])
  }

  lemma EmissionInTurn(f: Files, g: Files, limit: nat, e: Emission, stamps: seq<nat>)
    requires Counted(g, limit) && NewStamp(g, limit, e) && Kept(f, g, stamps)
    ensures var t, more := Next(g, limit, e), if Rotates(g, limit, e) then stamps + [e.stamp] else stamps;
            && Kept(f, t, more)
            && InTurn(t.rotated, more) + Active(t) == InTurn(g.rotated, stamps) + Active(g) + Written(g, limit, e)
  {
    var r := Rotate(g, limit, e);
    var turn := InTurn(g.rotated, stamps);
    NilRight(turn + Active(g));
    if Rotates(g, limit, e) {
      InTurnMore(g.rotated, stamps, e.stamp, g.active.value);
      NilRight(turn + Active(g));
      assert turn + Active(g) + Active(r) == turn + Active(g);
      Regroup(turn + Active(g), Active(r), e.line);
    } else {
      Regroup(turn, Active(g), e.line);
    }
  }

  /** With a stamp for every rotation that no rotated file has, in whatever order the
      clock gives them out: the files in order of rotation and then the file at the path
      spell out what that file held at first and all that was emitted since, and every
      file rotated before is untouched. */
  lemma {:induction false} ConservationInTurn(f: Files, limit: nat, es: seq<Emission>, k: nat)
    requires Counted(f, limit) && k <= |es| && NewStamps(f, limit, es, k)
    ensures var g, stamps := RunTo(f, limit, es, k), Stamps(f, limit, es, k);
            && Kept(f, g, stamps)
            && InTurn(g.rotated, stamps) + Active(g) == Active(f) + Emitted(f, limit, es, k)
  {
    if k == 0 {
      NilRight(Active(f));
    } else {
      ConservationInTurn(f, limit, es, k - 1);
      var g, e, stamps := RunTo(f, limit, es, k - 1), es[k - 1], Stamps(f, limit, es, k - 1);
      EmissionInTurn(f, g, limit, e, stamps);
      NilRight(stamps);
      Regroup(Active(f), Emitted(f, limit, es, k - 1), Written(g, limit, e));
    }
  }

  // ---- Sizes and whole lines -----------------------------------------------

  predicate WholeLines(content: Bytes) {
    content == [] || content[|content| - 1] == LF
  }

  /** Length of the last line, its line feed included. */
  function LastLine(content: Bytes): (n: nat)
    requires WholeLines(content)
    ensures n <= |content|
  {
    if content == [] then 0 else 1 + Unbroken(content, |content| - 1)
  }

  /** How many bytes right before position `end` are no line feeds. */
  function Unbroken(content: Bytes, end: nat): (n: nat)
    requires end <= |content|
    ensures n <= end && (forall i :: end - n <= i < end ==> content[i] != LF)
    ensures n < end ==> content[end - n - 1] == LF
  {
    if end == 0 || content[end - 1] == LF then 0 else 1 + Unbroken(content, end - 1)
  }

  lemma LastLineAppended(content: Bytes, line: Bytes)
    requires WholeLines(content) && OneLine(line)
    ensures WholeLines(content + line) && LastLine(content + line) == |line|
  {
    var all := content + line;
    var end := |all| - 1;
    var n := Unbroken(all, end);
    forall i | |content| <= i < end ensures all[i] != LF {
      assert all[i] == line[i - |content|] == line[..|line| - 1][i - |content|];
    }
    assert all[end] == line[|line| - 1];
    if content != [] {
      assert all[|content| - 1] == LF;
    }
  }

  /** A file of whole lines that was below the limit before its last line. */
  predicate Sized(content: Bytes, limit: nat) {
    WholeLines(content) && (content == [] || |content| - LastLine(content) < limit)
  }

  /** Rotated files that were not there at first hold at least the limit and less than
      the limit and their last line. */
  predicate RotatedAsSized(f: Files, limit: nat, before: set<nat>) {
    && (f.active.Some? ==> Sized(f.active.value, limit))
    && (forall h :: h in f.rotated && h !in before ==>
          Sized(f.rotated[h], limit) && limit <= |f.rotated[h]| < limit + LastLine(f.rotated[h]))
  }

  lemma EmissionKeepsSizes(f: Files, limit: nat, e: Emission, before: set<nat>)
    requires Counted(f, limit) && limit > 0 && OneLine(e.line) && RotatedAsSized(f, limit, before)
    ensures RotatedAsSized(Next(f, limit, e), limit, before)
  {
    var r := Rotate(f, limit, e);
    assert RotatedAsSized(r, limit, before);
    if Accepts(f, limit, e) {
      LastLineAppended(r.active.value, e.line);
    }
  }

  /** No line is ever split between files, and every file that the sink started is
      rotated by the first emission that finds it full. */
  lemma {:induction false} RotationBounds(f: Files, limit: nat, es: seq<Emission>, k: nat)
    requires Counted(f, limit) && limit > 0 && k <= |es| && forall i :: 0 <= i < |es| ==> OneLine(es[i].line)
    requires f.active.Some? ==> Sized(f.active.value, limit)
    ensures RotatedAsSized(RunTo(f, limit, es, k), limit, f.rotated.Keys)
  {
    if k > 0 {
      RotationBounds(f, limit, es, k - 1);
      EmissionKeepsSizes(RunTo(f, limit, es, k - 1), limit, es[k - 1], f.rotated.Keys);
    }
  }

  /** The stamp of the first rotation of a run. */
  function FirstStamp(f: Files, limit: nat, es: seq<Emission>, k: nat): Option<nat>
    requires Counted(f, limit) && k <= |es|
  {
    if k == 0 then None else
      var first := FirstStamp(f, limit, es, k - 1);
      if first.None? && Rotates(RunTo(f, limit, es, k - 1), limit, es[k - 1]) then Some(es[k - 1].stamp) else first
  }

  lemma FirstRotationSizes(f: Files, limit: nat, e: Emission, before: set<nat>)
    requires Counted(f, limit) && limit > 0 && OneLine(e.line) && f.rotated.Keys <= before && Rotates(f, limit, e)
    ensures RotatedAsSized(Next(f, limit, e), limit, before + {e.stamp})
  {
    assert Sized([], limit);
    if Accepts(f, limit, e) {
      LastLineAppended([], e.line);
      assert [] + e.line == e.line;
    }
  }

  /** The same for a sink reopened over any file, too long or without its last line feed:
      only the first rotation, the one of the inherited file, is exempt. */
  lemma {:induction false} InheritedRotationBounds(f: Files, limit: nat, es: seq<Emission>, k: nat)
    requires Counted(f, limit) && limit > 0 && k <= |es| && forall i :: 0 <= i < |es| ==> OneLine(es[i].line)
    ensures match FirstStamp(f, limit, es, k)
            case None => RunTo(f, limit, es, k).rotated == f.rotated
            case Some(x) => RotatedAsSized(RunTo(f, limit, es, k), limit, f.rotated.Keys + {x})
  {
    if k > 0 {
      InheritedRotationBounds(f, limit, es, k - 1);
      var g, e := RunTo(f, limit, es, k - 1), es[k - 1];
      match FirstStamp(f, limit, es, k - 1)
      case Some(x) => EmissionKeepsSizes(g, limit, e, f.rotated.Keys + {x});
      case None =>
        if Rotates(g, limit, e) {
          FirstRotationSizes(g, limit, e, f.rotated.Keys);
        }
    }
  }

  /** A limit of zero switches rotation off. */
  lemma {:induction false} ZeroNeverRotates(f: Files, es: seq<Emission>, k: nat)
    requires Counted(f, 0) && k <= |es|
    ensures RunTo(f, 0, es, k).rotated == f.rotated
    ensures AllBytes(RunTo(f, 0, es, k)) == AllBytes(f) + Emitted(f, 0, es, k)
  {
    if k > 0 {
      ZeroNeverRotates(f, es, k - 1);
      var g, e := RunTo(f, 0, es, k - 1), es[k - 1];
      EmissionKeepsAll(g, 0, e);
      Regroup(AllBytes(f), Emitted(f, 0, es, k - 1), Written(g, 0, e));
    } else {
      NilRight(AllBytes(f));
    }
  }

  // ---- A rotation that cannot reopen ---------------------------------------

  /** A line can still be written, if all calls succeed, exactly while the file is there. */
  lemma WritableIff(f: Files, limit: nat, line: Bytes)
    requires Counted(f, limit)
    ensures (exists e: Emission :: e.line == line && Accepts(f, limit, e)) <==> f.active.Some?
  {
    if f.active.Some? {
      assert Accepts(f, limit, Emission(line, 0, true, true, true, true));
    }
  }

  /** The file goes missing exactly by a rotation that renames it and opens no new one. */
  lemma MissingIff(f: Files, limit: nat, e: Emission)
    requires Counted(f, limit) && f.active.Some?
    ensures Next(f, limit, e).active.None? <==> Rotates(f, limit, e) && !e.reopened
  {
  }

  /** Once a rotation has moved the file away and could not open a new one, every
      later emission fails and nothing is written any more. */
  lemma {:induction false} FailedReopenIsFinal(f: Files, limit: nat, es: seq<Emission>, k: nat)
    requires Counted(f, limit) && f.active.None? && k <= |es|
    ensures RunTo(f, limit, es, k) == f
    ensures k < |es| ==> !Accepts(RunTo(f, limit, es, k), limit, es[k])
  {
    if k > 0 {
      FailedReopenIsFinal(f, limit, es, k - 1);
    }
  }
}
