/** The spool directory: listings, and the payloads on disk in file-name order. */
module Disk {
  import opened Wrappers
  import opened Framing

  // ---- Directory listings --------------------------------------------------

  predicate Ascending(names: seq<nat>) {
    forall i, j :: 0 <= i < j < |names| ==> names[i] < names[j]
  }

  function Insert(n: nat, names: seq<nat>): seq<nat> {
    if names == [] || n < names[0] then [n] + names else [names[0]] + Insert(n, names[1..])
  }

  /** Segment names carry a fixed-width hour stamp, so name order is hour order. */
  function Sort(names: seq<nat>): seq<nat> {
    if names == [] then [] else Insert(names[0], Sort(names[1..]))
  }

  lemma PrependAscending(x: nat, names: seq<nat>)
    requires Ascending(names) && forall n :: n in names ==> x < n
    ensures Ascending([x] + names)
  {
    assert forall i :: 0 <= i < |names| ==> names[i] in names;
  }

  lemma {:induction false} InsertSorted(n: nat, names: seq<nat>)
    requires Ascending(names) && n !in names
    ensures Ascending(Insert(n, names))
    ensures forall x :: x in Insert(n, names) <==> x == n || x in names
  {
    if names == [] || n < names[0] {
      PrependAscending(n, names);
    } else {
      var head, tail := names[0], names[1..];
      assert names == [head] + tail;
      InsertSorted(n, tail);
      PrependAscending(head, Insert(n, tail));
    }
  }

  lemma {:induction false} SortListing(names: seq<nat>)
    requires Distinct(names)
    ensures Ascending(Sort(names))
    ensures forall x :: x in Sort(names) <==> x in names
  {
    if names != [] {
      SortListing(names[1..]);
      InsertSorted(names[0], Sort(names[1..]));
    }
  }

  lemma TakeDrop(lines: seq<string>, n: nat, rest: seq<string>)
    requires n <= |lines|
    ensures lines[..n] + (lines[n..] + rest) == lines + rest
  {
    assert lines == lines[..n] + lines[n..];
  }

  // ---- Directory contents in file-name order -------------------------------

  ghost function Least(s: set<nat>): (m: nat)
    requires s != {}
    ensures m in s && forall x :: x in s ==> m <= x
  {
    var x :| x in s;
    if s == {x} then x else
      var y := Least(s - {x});
      assert forall z :: z in s ==> z == x || z in s - {x};
      if x < y then x else y
  }

  /** All payloads on disk, segments in file-name order. */
  ghost function Contents(files: map<nat, string>): seq<string>
    decreases |files|
  {
    if files == map[] then [] else
      var m := Least(files.Keys);
      assert (files - {m}).Keys == files.Keys - {m};
      SpoolLines(files[m]) + Contents(files - {m})
  }

  lemma ContentsSplit(files: map<nat, string>, m: nat)
    requires m in files && forall h :: h in files ==> m <= h
    ensures Contents(files) == SpoolLines(files[m]) + Contents(files - {m})
  {
  }

  lemma ContentsOfOne(files: map<nat, string>, h: nat)
    requires files.Keys == {h}
    ensures Contents(files) == SpoolLines(files[h])
  {
    ContentsSplit(files, h);
    assert files - {h} == map[];
    assert SpoolLines(files[h]) + [] == SpoolLines(files[h]);
  }

  lemma {:induction false} ContentsAppend(files: map<nat, string>, h: nat, content: string, p: string)
    requires forall x :: x in files ==> x <= h
    requires SpoolLines(content) == (if h in files then SpoolLines(files[h]) else []) + [p]
    ensures Contents(files[h := content]) == Contents(files) + [p]
    decreases |files|
  {
    var after := files[h := content];
    if files == map[] {
      ContentsOfOne(after, h);
    } else {
      var m := Least(files.Keys);
      if m == h {
        assert files.Keys == {h};
        ContentsOfOne(files, h);
        ContentsOfOne(after, h);
      } else {
        var rest := files - {m};
        assert rest.Keys == files.Keys - {m} && after - {m} == rest[h := content];
        ContentsSplit(files, m);
        ContentsSplit(after, m);
        ContentsAppend(rest, h, content, p);
        Regroup(SpoolLines(files[m]), Contents(rest), [p]);
      }
    }
  }

  /** Whatever the name of a segment, its payloads can be split off as a multiset. */
  lemma {:induction false} ContentsBag(files: map<nat, string>, h: nat)
    requires h in files
    ensures multiset(Contents(files)) == multiset(SpoolLines(files[h])) + multiset(Contents(files - {h}))
    decreases |files|
  {
    var m := Least(files.Keys);
    var head := SpoolLines(files[m]);
    assert Contents(files) == head + Contents(files - {m});
    if m != h {
      var rest := files - {h};
      assert rest - {m} == files - {m} - {h};
      assert Contents(rest) == head + Contents(rest - {m}) by { ContentsSplit(rest, m); }
      ContentsBag(files - {m}, h);
    }
  }

  // ---- Changing one segment ------------------------------------------------

  lemma ReplaceBag(files: map<nat, string>, h: nat, content: string)
    ensures multiset(Contents(files[h := content]))
         == multiset(SpoolLines(content)) + multiset(Contents(files - {h}))
  {
    ContentsBag(files[h := content], h);
    assert files[h := content] - {h} == files - {h};
  }

  function Appended(files: map<nat, string>, p: string, stamp: nat): map<nat, string> {
    files[stamp := (if stamp in files then files[stamp] else "") + p + "\n"]
  }

  /** A payload spooled at that hour starts a line of its own. */
  predicate Whole(files: map<nat, string>, stamp: nat) {
    stamp in files ==> Terminated(files[stamp])
  }

  lemma SegmentBag(files: map<nat, string>, h: nat)
    ensures multiset(Contents(files))
         == multiset(SpoolLines(if h in files then files[h] else "")) + multiset(Contents(files - {h}))
  {
    if h in files {
      ContentsBag(files, h);
    } else {
      EmptyFramed();
      assert files - {h} == files;
    }
  }

  /** An append adds its payload to those on disk exactly if it starts a line of its own. */
  lemma AppendBagIff(files: map<nat, string>, p: string, stamp: nat)
    requires Frameable(p)
    ensures multiset(Contents(Appended(files, p, stamp))) == multiset(Contents(files)) + multiset{p} <==> Whole(files, stamp)
  {
    var prior := if stamp in files then files[stamp] else "";
    AppendLineIff(prior, p);
    SegmentBag(files, stamp);
    ReplaceBag(files, stamp, prior + p + "\n");
    hide SpoolLines, Contents;
    BagCancel(multiset(SpoolLines(prior + p + "\n")), multiset(SpoolLines(prior)), multiset(Contents(files - {stamp})), p);
  }

  lemma BagCancel(a: multiset<string>, b: multiset<string>, rest: multiset<string>, p: string)
    ensures a + rest == b + rest + multiset{p} <==> a == b + multiset{p}
  {
    assert b + multiset{p} + rest == b + rest + multiset{p};
    if a + rest == b + rest + multiset{p} {
      forall x ensures a[x] == (b + multiset{p})[x] {
        assert (a + rest)[x] == (b + rest + multiset{p})[x];
      }
    }
  }

  lemma SplitBag(lines: seq<string>, n: nat)
    requires n <= |lines|
    ensures multiset(lines[..n]) + multiset(lines[n..]) == multiset(lines)
  {
    assert lines == lines[..n] + lines[n..];
  }

  /** Writing back keeps the count exactly if what is written back reads as the unsent lines. */
  lemma CommitBagIff(files: map<nat, string>, seg: nat, done: nat, content: string)
    requires seg in files && done <= |SpoolLines(files[seg])|
    ensures multiset(SpoolLines(files[seg])[..done]) + multiset(Contents(files[seg := content])) == multiset(Contents(files))
       <==> multiset(SpoolLines(content)) == multiset(SpoolLines(files[seg])[done..])
  {
    SplitBag(SpoolLines(files[seg]), done);
    ContentsBag(files, seg);
    ReplaceBag(files, seg, content);
    hide SpoolLines, Contents;
    SameRest(multiset(SpoolLines(files[seg])[..done]), multiset(SpoolLines(content)),
             multiset(SpoolLines(files[seg])[done..]), multiset(Contents(files - {seg})));
  }

  lemma SameRest(a: multiset<string>, b: multiset<string>, c: multiset<string>, rest: multiset<string>)
    ensures a + (b + rest) == (a + c) + rest <==> b == c
  {
    if a + (b + rest) == (a + c) + rest {
      forall x ensures b[x] == c[x] {
        assert (a + (b + rest))[x] == ((a + c) + rest)[x];
      }
    }
  }

  lemma WriteBackDisk(files: map<nat, string>, seg: nat, done: nat, content: string)
    requires seg in files && forall h :: h in files ==> seg <= h
    requires done <= |SpoolLines(files[seg])| && SpoolLines(content) == SpoolLines(files[seg])[done..]
    ensures SpoolLines(files[seg])[..done] + Contents(files[seg := content]) == Contents(files)
  {
    var after := files[seg := content];
    ContentsSplit(files, seg);
    ContentsSplit(after, seg);
    assert after - {seg} == files - {seg};
    TakeDrop(SpoolLines(files[seg]), done, Contents(files - {seg}));
  }

  lemma FrontOfDisk(files: map<nat, string>, seg: nat, n: nat)
    requires seg in files && (forall h :: h in files ==> seg <= h) && n <= |SpoolLines(files[seg])|
    ensures SpoolLines(files[seg])[..n] <= SpoolLines(files[seg])
    ensures SpoolLines(files[seg])[..n] <= Contents(files)
  {
    ContentsSplit(files, seg);
  }

  // ---- A listing that is being worked off ----------------------------------

  /** The payloads in the named segments. */
  ghost function Bag(files: map<nat, string>, names: seq<nat>): multiset<string> {
    if names == [] then multiset{}
    else (if names[0] in files then multiset(SpoolLines(files[names[0]])) else multiset{}) + Bag(files, names[1..])
  }

  lemma {:induction false} BagGrows(files: map<nat, string>, names: seq<nat>, h: nat, content: string)
    requires h in files ==> multiset(SpoolLines(files[h])) <= multiset(SpoolLines(content))
    ensures Bag(files, names) <= Bag(files[h := content], names)
  {
    if names != [] {
      BagGrows(files, names[1..], h, content);
    }
  }

  lemma {:induction false} BagWithout(files: map<nat, string>, names: seq<nat>, h: nat)
    requires h !in names
    ensures Bag(files - {h}, names) == Bag(files, names)
  {
    if names != [] {
      BagWithout(files, names[1..], h);
    }
  }

  lemma {:induction false} BagOfListing(files: map<nat, string>, names: seq<nat>)
    requires Ascending(names) && forall h :: h in names <==> h in files
    ensures Bag(files, names) == multiset(Contents(files))
  {
    if names == [] {
      assert forall h :: h in files ==> h in names;
      assert files == map[];
    } else {
      var m := names[0];
      var rest := names[1..];
      forall h | h in files ensures m <= h {
        assert h in names;
      }
      ContentsSplit(files, m);
      forall h ensures h in rest <==> h in files - {m} {
        assert h in names <==> h == m || h in rest;
      }
      BagOfListing(files - {m}, rest);
      BagWithout(files, rest, m);
    }
  }

  predicate Above(names: seq<nat>, h: nat) {
    forall i :: 0 <= i < |names| ==> names[i] < h
  }

  /** The listed segments are the oldest ones on disk, in order. */
  ghost predicate OldestFirst(files: map<nat, string>, names: seq<nat>) {
    && Ascending(names)
    && (forall i :: 0 <= i < |names| ==> names[i] in files)
    && (forall h :: h in files ==> h in names || Above(names, h))
  }

  lemma HeadIsLeast(files: map<nat, string>, names: seq<nat>)
    requires OldestFirst(files, names) && names != []
    ensures names[0] in files && forall h :: h in files ==> names[0] <= h
  {
    forall h | h in files ensures names[0] <= h {
      if h in names {
        var i :| 0 <= i < |names| && names[i] == h;
      }
    }
  }

  lemma TailAscending(names: seq<nat>)
    requires Ascending(names) && names != []
    ensures Ascending(names[1..]) && names[0] !in names[1..]
    ensures forall i :: 0 <= i < |names| - 1 ==> names[1..][i] == names[i + 1]
  {
  }

  lemma DropHead(files: map<nat, string>, names: seq<nat>)
    requires OldestFirst(files, names) && names != []
    ensures OldestFirst(files - {names[0]}, names[1..])
    ensures names[0] !in names[1..]
  {
    var rest := names[1..];
    TailAscending(names);
    hide Ascending;
    forall h | h in files && h != names[0] ensures h in rest || Above(rest, h) {
      if h in names {
        var i :| 0 <= i < |names| && names[i] == h;
        assert rest[i - 1] == h;
      }
    }
  }

  lemma AppendKeepsListing(files: map<nat, string>, names: seq<nat>, stamp: nat, content: string)
    requires OldestFirst(files, names) && forall h :: h in files ==> h <= stamp
    ensures OldestFirst(files[stamp := content], names)
  {
    if stamp !in files {
      assert forall i :: 0 <= i < |names| ==> names[i] < stamp;
    }
  }

  lemma ListedOldestFirst(files: map<nat, string>, names: seq<nat>)
    requires Distinct(names) && forall n :: n in names <==> n in files
    ensures OldestFirst(files, Sort(names))
  {
    SortListing(names);
    forall i | 0 <= i < |Sort(names)| ensures Sort(names)[i] in files {
      assert Sort(names)[i] in Sort(names);
    }
  }

  lemma RemoveDisk(files: map<nat, string>, names: seq<nat>)
    requires OldestFirst(files, names) && names != []
    ensures Contents(files) == SpoolLines(files[names[0]]) + Contents(files - {names[0]})
  {
    HeadIsLeast(files, names);
    DropHead(files, names);
    ContentsSplit(files, names[0]);
  }
}
