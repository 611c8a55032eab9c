/** Line framing of spool segments: one payload a line, as the sink appends them
    and as the replay task splits them again. */
module Framing {
  import opened Wrappers

  /** Unicode White_Space, which is what trimming a line removes. */
  predicate IsSpace(c: char) {
    var u := c as int;
    || 0x9 <= u <= 0xD
    || u in {0x20, 0x85, 0xA0, 0x1680, 0x2028, 0x2029, 0x202F, 0x205F, 0x3000}
    || 0x2000 <= u <= 0x200A
  }

  predicate Blank(line: string) {
    forall i :: 0 <= i < |line| ==> IsSpace(line[i])
  }

  /** A payload that survives being written as one line of a segment. */
  predicate Frameable(p: string) {
    && !Blank(p)
    && (p != "" ==> p[|p| - 1] != '\r')
    && forall i :: 0 <= i < |p| ==> p[i] != '\n'
  }

  predicate AllFrameable(ps: seq<string>) {
    forall i :: 0 <= i < |ps| ==> Frameable(ps[i])
  }

  /** What appending the payloads one by one leaves in a segment. */
  function Segment(ps: seq<string>): string {
    if ps == [] then "" else ps[0] + "\n" + Segment(ps[1..])
  }

  /** The payloads separated by `sep`, without a trailing separator. */
  function Join(ps: seq<string>, sep: string): string {
    if ps == [] then "" else if |ps| == 1 then ps[0] else ps[0] + sep + Join(ps[1..], sep)
  }

  /** Index of the first line feed, or the length. */
  function FirstBreak(s: string): (k: nat)
    ensures k <= |s|
    ensures forall i :: 0 <= i < k ==> s[i] != '\n'
    ensures k < |s| ==> s[k] == '\n'
  {
    if s == "" || s[0] == '\n' then 0 else 1 + FirstBreak(s[1..])
  }

  function StripCr(line: string): string {
    if line != "" && line[|line| - 1] == '\r' then line[..|line| - 1] else line
  }

  /** Lines end at a line feed, with an optional carriage return before it; an
      unterminated last line counts, an empty one does not. */
  function RawLines(s: string): seq<string>
    decreases |s|
  {
    var k := FirstBreak(s);
    if s == "" then []
    else if k == |s| then [s]
    else [StripCr(s[..k])] + RawLines(s[k + 1..])
  }

  function KeepNonBlank(lines: seq<string>): seq<string> {
    if lines == [] then []
    else if Blank(lines[0]) then KeepNonBlank(lines[1..])
    else [lines[0]] + KeepNonBlank(lines[1..])
  }

  /** The payloads that replay reads out of a segment. */
  function SpoolLines(content: string): seq<string> {
    KeepNonBlank(RawLines(content))
  }

  lemma FirstBreakAfter(p: string, rest: string)
    requires forall i :: 0 <= i < |p| ==> p[i] != '\n'
    ensures FirstBreak(p + "\n" + rest) == |p|
  {
    var s := p + "\n" + rest;
    assert s[|p|] == '\n';
    assert forall i :: 0 <= i < |p| ==> s[i] == p[i];
  }

  lemma FirstLine(head: string, rest: string)
    requires forall i :: 0 <= i < |head| ==> head[i] != '\n'
    ensures RawLines(head + "\n" + rest) == [StripCr(head)] + RawLines(rest)
  {
    var s := head + "\n" + rest;
    FirstBreakAfter(head, rest);
    assert s[..|head|] == head && s[|head| + 1..] == rest;
  }

  lemma KeepCons(line: string, lines: seq<string>)
    ensures KeepNonBlank([line] + lines) == (if Blank(line) then [] else [line]) + KeepNonBlank(lines)
  {
    assert ([line] + lines)[1..] == lines;
    assert [] + KeepNonBlank(lines) == KeepNonBlank(lines);
  }

  /** What splitting makes lines of: none is blank or holds a line feed. */
  predicate Listed(lines: seq<string>) {
    forall i :: 0 <= i < |lines| ==> !Blank(lines[i]) && '\n' !in lines[i]
  }

  lemma StripNonBlank(line: string)
    requires !Blank(line)
    ensures !Blank(StripCr(line))
  {
    var i :| 0 <= i < |line| && !IsSpace(line[i]);
    assert StripCr(line)[i] == line[i];
  }

  function Stripped(lines: seq<string>): seq<string> {
    if lines == [] then [] else [StripCr(lines[0])] + Stripped(lines[1..])
  }

  /** Splitting a segment gives back its lines, less a carriage return at the end of each. */
  lemma {:induction false} SegmentReads(ps: seq<string>)
    requires Listed(ps)
    ensures SpoolLines(Segment(ps)) == Stripped(ps)
  {
    if ps != [] {
      var p, rest := ps[0], Segment(ps[1..]);
      FirstLine(p, rest);
      StripNonBlank(p);
      KeepCons(StripCr(p), RawLines(rest));
      SegmentReads(ps[1..]);
    }
  }

  lemma {:induction false} StrippedSame(ps: seq<string>)
    requires AllFrameable(ps)
    ensures Listed(ps) && Stripped(ps) == ps
  {
    if ps != [] {
      StrippedSame(ps[1..]);
      assert Frameable(ps[0]);
      assert ps == [ps[0]] + ps[1..];
    }
  }

  /** Splitting a segment gives back exactly the payloads that were appended. */
  lemma SegmentRoundTrip(ps: seq<string>)
    requires AllFrameable(ps)
    ensures SpoolLines(Segment(ps)) == ps
  {
    StrippedSame(ps);
    SegmentReads(ps);
  }

  lemma {:induction false} RawLinesBreakFree(s: string)
    ensures forall i :: 0 <= i < |RawLines(s)| ==> '\n' !in RawLines(s)[i]
    decreases |s|
  {
    var k := FirstBreak(s);
    if s != "" && k < |s| {
      RawLinesBreakFree(s[k + 1..]);
      assert '\n' !in s[..k];
    }
  }

  lemma {:induction false} KeepLists(lines: seq<string>)
    requires forall i :: 0 <= i < |lines| ==> '\n' !in lines[i]
    ensures Listed(KeepNonBlank(lines))
  {
    if lines != [] {
      KeepLists(lines[1..]);
    }
  }

  lemma SpoolLinesListed(content: string)
    ensures Listed(SpoolLines(content))
  {
    RawLinesBreakFree(content);
    KeepLists(RawLines(content));
  }

  /** The text that is written back for an unsent tail is the encoding of that tail. */
  lemma {:induction false} JoinIsSegment(ps: seq<string>)
    requires ps != []
    ensures Join(ps, "\n") + "\n" == Segment(ps)
  {
    if |ps| > 1 {
      JoinIsSegment(ps[1..]);
    } else {
      assert Segment(ps[1..]) == "";
    }
  }

  predicate Terminated(content: string) {
    content == "" || content[|content| - 1] == '\n'
  }

  /** A segment whose payloads survive being written back. */
  predicate Readable(content: string) {
    AllFrameable(SpoolLines(content))
  }

  lemma CutLine(a: string) returns (head: string, tail: string)
    requires Terminated(a) && a != ""
    ensures a == head + "\n" + tail && Terminated(tail)
    ensures forall i :: 0 <= i < |head| ==> head[i] != '\n'
  {
    var k := FirstBreak(a);
    head, tail := a[..k], a[k + 1..];
  }

  lemma RawLinesStep(head: string, tail: string, b: string)
    requires forall i :: 0 <= i < |head| ==> head[i] != '\n'
    requires RawLines(tail + b) == RawLines(tail) + RawLines(b)
    ensures RawLines(head + "\n" + tail + b) == RawLines(head + "\n" + tail) + RawLines(b)
  {
    FirstLine(head, tail);
    FirstLine(head, tail + b);
    hide RawLines, StripCr;
    Regroup(head + "\n", tail, b);
    Regroup([StripCr(head)], RawLines(tail), RawLines(b));
  }

  lemma {:induction false} RawLinesAppend(a: string, b: string)
    requires Terminated(a)
    ensures RawLines(a + b) == RawLines(a) + RawLines(b)
    decreases |a|
  {
    if a == "" {
      assert a + b == b;
    } else {
      hide RawLines;
      var head, tail := CutLine(a);
      RawLinesAppend(tail, b);
      RawLinesStep(head, tail, b);
    }
  }

  lemma {:induction false} KeepAppend(a: seq<string>, b: seq<string>)
    ensures KeepNonBlank(a + b) == KeepNonBlank(a) + KeepNonBlank(b)
  {
    if a == [] {
      assert a + b == b;
    } else {
      assert (a + b)[0] == a[0] && (a + b)[1..] == a[1..] + b;
      KeepAppend(a[1..], b);
    }
  }

  lemma SpoolLinesAppend(a: string, b: string)
    requires Terminated(a)
    ensures SpoolLines(a + b) == SpoolLines(a) + SpoolLines(b)
  {
    RawLinesAppend(a, b);
    KeepAppend(RawLines(a), RawLines(b));
  }

  lemma OneLine(p: string)
    requires Frameable(p)
    ensures SpoolLines(p + "\n") == [p]
  {
    SegmentRoundTrip([p]);
    assert Segment([p]) == p + "\n";
  }

  /** A line of blanks is skipped, be they spaces, tabs, carriage returns or the like. */
  lemma BlankIsSkipped(line: string)
    requires forall i :: 0 <= i < |line| ==>
               line[i] in [' ', '\t', '\r', 0x0B as char, 0x0C as char, 0x85 as char, 0xA0 as char, 0x2003 as char, 0x3000 as char]
    ensures SpoolLines(line + "\n") == []
  {
    assert Blank(line) by {
      forall i | 0 <= i < |line| ensures IsSpace(line[i]) {
      }
    }
    assert line + "\n" == line + "\n" + "";
    FirstLine(line, "");
    KeepCons(StripCr(line), RawLines(""));
    assert Blank(StripCr(line));
  }

  /** A line with anything else in it is kept as it is, but for a carriage return at its end. */
  lemma VisibleIsKept(line: string, k: nat)
    requires '\n' !in line && k < |line| && '!' <= line[k] <= '~'
    ensures SpoolLines(line + "\n") == [StripCr(line)]
  {
    assert !IsSpace(line[k]) && !Blank(line);
    assert line + "\n" == line + "\n" + "";
    FirstLine(line, "");
    StripNonBlank(line);
    KeepCons(StripCr(line), RawLines(""));
  }

  /** Appending one payload and a line feed appends exactly that payload. */
  lemma AppendLine(content: string, p: string)
    requires Terminated(content) && Frameable(p)
    ensures Terminated(content + p + "\n")
    ensures SpoolLines(content + p + "\n") == SpoolLines(content) + [p]
  {
    assert content + p + "\n" == content + (p + "\n");
    SpoolLinesAppend(content, p + "\n");
    OneLine(p);
  }

  lemma {:induction false} SplitTail(content: string) returns (whole: string, tail: string)
    requires !Terminated(content)
    ensures content == whole + tail && Terminated(whole) && tail != ""
    ensures forall i :: 0 <= i < |tail| ==> tail[i] != '\n'
    decreases |content|
  {
    var k := FirstBreak(content);
    if k == |content| {
      whole, tail := "", content;
    } else {
      assert !Terminated(content[k + 1..]);
      whole, tail := SplitTail(content[k + 1..]);
      whole := content[..k + 1] + whole;
    }
  }

  lemma GluedLine(tail: string, p: string)
    requires tail != "" && Frameable(p) && forall i :: 0 <= i < |tail| ==> tail[i] != '\n'
    ensures Frameable(tail + p) && SpoolLines(tail + p + "\n") == [tail + p]
  {
    var i :| 0 <= i < |p| && !IsSpace(p[i]);
    assert (tail + p)[|tail| + i] == p[i] && (tail + p)[|tail + p| - 1] == p[|p| - 1];
    OneLine(tail + p);
  }

  /** A payload appended to an unterminated line is glued to it. */
  lemma AppendGlued(content: string, p: string) returns (lines: seq<string>, tail: string)
    requires !Terminated(content) && Frameable(p)
    ensures tail != "" && Frameable(tail + p)
    ensures SpoolLines(content) == lines + (if Blank(tail) then [] else [tail])
    ensures SpoolLines(content + p + "\n") == lines + [tail + p]
  {
    var whole;
    whole, tail := SplitTail(content);
    lines := SpoolLines(whole);
    assert content + p + "\n" == whole + (tail + p + "\n");
    SpoolLinesAppend(whole, tail + p + "\n");
    GluedLine(tail, p);
    SpoolLinesAppend(whole, tail);
    assert FirstBreak(tail) == |tail| && RawLines(tail) == [tail];
    assert KeepNonBlank([tail]) == if Blank(tail) then [] else [tail];
  }

  /** An append adds exactly its payload if and only if the segment was empty or ended
      with a line feed, and even if only the number of each payload counts. */
  lemma AppendLineIff(content: string, p: string)
    requires Frameable(p)
    ensures SpoolLines(content + p + "\n") == SpoolLines(content) + [p] <==> Terminated(content)
    ensures multiset(SpoolLines(content + p + "\n")) == multiset(SpoolLines(content)) + multiset{p} <==> Terminated(content)
  {
    if Terminated(content) {
      AppendLine(content, p);
    } else {
      var lines, tail := AppendGlued(content, p);
      var after, before := multiset(lines + [tail + p]), multiset(SpoolLines(content)) + multiset{p};
      assert after == multiset(lines) + multiset{tail + p};
      assert multiset(SpoolLines(content) + [p]) == before;
      assert |tail + p| != |p|;
      if Blank(tail) {
        assert SpoolLines(content) == lines;
        assert after[p] == multiset(lines)[p] && before[p] == multiset(lines)[p] + 1;
      } else {
        assert |after| == |lines| + 1 && |before| == |lines| + 2;
      }
    }
  }

  function Length(lines: seq<string>): nat {
    if lines == [] then 0 else |lines[0]| + Length(lines[1..])
  }

  lemma {:induction false} LengthWithout(lines: seq<string>, i: nat)
    requires i < |lines|
    ensures Length(lines) == |lines[i]| + Length(lines[..i] + lines[i + 1..])
  {
    if i == 0 {
      assert lines[..0] + lines[1..] == lines[1..];
    } else {
      LengthWithout(lines[1..], i - 1);
      var less := lines[..i] + lines[i + 1..];
      assert less[0] == lines[0] && less[1..] == lines[1..][..i - 1] + lines[1..][i..];
    }
  }

  lemma TakeOut(b: seq<string>, i: nat)
    requires i < |b|
    ensures multiset(b) - multiset{b[i]} == multiset(b[..i] + b[i + 1..])
  {
    assert b == b[..i] + [b[i]] + b[i + 1..];
  }

  lemma TakeFirst(a: seq<string>)
    requires a != []
    ensures a[0] in multiset(a) && multiset(a) - multiset{a[0]} == multiset(a[1..])
  {
    assert a == [a[0]] + a[1..];
  }

  lemma FindIn(b: seq<string>, x: string) returns (i: nat)
    requires x in multiset(b)
    ensures i < |b| && b[i] == x
  {
    i :| 0 <= i < |b| && b[i] == x;
  }

  lemma FindFirst(a: seq<string>, b: seq<string>) returns (i: nat)
    requires a != [] && multiset(a) == multiset(b)
    ensures i < |b| && b[i] == a[0] && multiset(a[1..]) == multiset(b[..i] + b[i + 1..])
  {
    TakeFirst(a);
    i := FindIn(b, a[0]);
    TakeOut(b, i);
  }

  lemma {:induction false} SameLength(a: seq<string>, b: seq<string>)
    requires multiset(a) == multiset(b)
    ensures Length(a) == Length(b)
    decreases |a|
  {
    if a == [] {
      assert |b| == |multiset(b)| == 0;
    } else {
      var i := FindFirst(a, b);
      var less := b[..i] + b[i + 1..];
      LengthWithout(b, i);
      SameLength(a[1..], less);
    }
  }

  lemma {:induction false} StrippedShorter(lines: seq<string>)
    requires Listed(lines)
    ensures Length(Stripped(lines)) <= Length(lines)
    ensures Length(Stripped(lines)) == Length(lines) ==> AllFrameable(lines)
  {
    if lines != [] {
      StrippedShorter(lines[1..]);
      assert Stripped(lines)[1..] == Stripped(lines[1..]);
      if Length(Stripped(lines)) == Length(lines) {
        assert Frameable(lines[0]);
        assert forall i :: 0 < i < |lines| ==> lines[i] == lines[1..][i - 1];
      }
    }
  }

  /** Writing back the tail from line `i` on leaves exactly that tail if and only if none of
      its lines ends with a carriage return, and even if only the number of each counts. */
  lemma WriteBackIff(lines: seq<string>, i: nat)
    requires Listed(lines) && i < |lines|
    ensures var content := Join(lines[i..], "\n") + "\n";
            && Terminated(content)
            && (AllFrameable(lines[i..]) ==> SpoolLines(content) == lines[i..])
            && (multiset(SpoolLines(content)) == multiset(lines[i..]) <==> AllFrameable(lines[i..]))
  {
    var tail := lines[i..];
    JoinIsSegment(tail);
    SegmentReads(tail);
    if AllFrameable(tail) {
      StrippedSame(tail);
    } else {
      StrippedShorter(tail);
      if multiset(Stripped(tail)) == multiset(tail) {
        SameLength(Stripped(tail), tail);
      }
    }
  }

  lemma EmptyFramed()
    ensures Terminated("") && SpoolLines("") == []
  {
    SegmentRoundTrip([]);
  }
}
