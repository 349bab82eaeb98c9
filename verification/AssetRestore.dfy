/** Reading a rewritten text back: when the inserted segments can be told from the output alone. */
module AssetRestore {
  import opened Basics
  import opened Assets

  /** What follows a marker: the segment and then a known path. */
  predicate Versioned(rest: string, segment: string, known: set<string>) {
    segment <= rest && PathAt(rest, |segment|) in known
  }

  /** `out` without the segment wherever a marker is followed by it and a known path. */
  function Stripped(out: string, segment: string, known: set<string>): string
    decreases |out|
  {
    match Find(out)
    case None => out
    case Some(i) =>
      var rest := out[i + |MARK|..];
      out[..i + |MARK|] + Stripped(if Versioned(rest, segment, known) then rest[|segment|..] else rest, segment, known)
  }

  /** No known path reads on from a marker that begins inside the segment. */
  predicate Fitting(segment: string, known: set<string>) {
    && segment != "" && Find(segment).None?
    && forall m, p | 0 < m < |MARK| && Tail(segment, m) == MARK[..m] && p in known :: !(MARK[m..|MARK| - 1] <= p)
  }

  function Tail(s: string, m: nat): string {
    if m <= |s| then s[|s| - m..] else s
  }

  /** A reference of the text that is left alone although it already reads as versioned. */
  predicate Ambiguous(text: string, segment: string, known: set<string>, k: nat) {
    && |MARK| <= k && Counted(text, k - |MARK|)
    && !Point(text, known, k) && Versioned(text[k..], segment, known)
  }

  // ---- texts that begin alike ----------------------------------------------

  lemma AlikeMarks(x: string, y: string, n: nat, k: nat)
    requires n <= |x| && n <= |y| && x[..n] == y[..n] && k + |MARK| <= n
    ensures MarkAt(x, k) == MarkAt(y, k)
  {
    assert x[k..k + |MARK|] == x[..n][k..k + |MARK|];
    assert y[k..k + |MARK|] == y[..n][k..k + |MARK|];
  }

  lemma AlikeFinds(x: string, y: string, f: nat)
    requires Find(y) == Some(f) && f + |MARK| <= |x| && x[..f + |MARK|] == y[..f + |MARK|]
    ensures Find(x) == Some(f)
  {
    forall i: nat | i <= f ensures MarkAt(x, i) == MarkAt(y, i) {
      AlikeMarks(x, y, f + |MARK|, i);
    }
  }

  lemma {:induction false} AlikePaths(x: string, y: string, f: nat, k: nat)
    requires f + |MARK| <= |x| && f + |MARK| <= |y| && x[..f + |MARK|] == y[..f + |MARK|]
    requires MarkAt(x, f) && k <= f
    ensures PathAt(x, k) == PathAt(y, k)
    decreases f - k
  {
    AlikeMarks(x, y, f + |MARK|, k);
    assert x[k] == x[..f + |MARK|][k] == y[k];
    if k < f {
      AlikePaths(x, y, f, k + 1);
    }
  }

  lemma {:induction false} PathDrops(x: string, o: nat, k: nat)
    requires o <= |x|
    ensures PathAt(x[o..], k) == PathAt(x, o + k)
    decreases |x| - k
  {
    MarkShift(x, o, k);
    if o + k < |x| {
      assert x[o..][k] == x[o + k];
      PathDrops(x, o, k + 1);
    }
  }

  lemma MarkBegins(x: string, i: nat)
    requires MarkAt(x, i)
    ensures x[i] == '/' && x[i + 1] == 'a' && x[i + 3] == 'm'
  {
    var mark := x[i..i + |MARK|];
    assert x[i] == mark[0] && x[i + 1] == mark[1] && x[i + 3] == mark[3];
  }

  /** A path read from inside a marker begins with the rest of it. */
  lemma {:induction false} PathInsideMark(x: string, f: nat, m: nat)
    requires MarkAt(x, f) && 0 < m < |MARK|
    ensures MARK[m..|MARK| - 1] <= PathAt(x, f + m)
    decreases |MARK| - m
  {
    if m < |MARK| - 1 {
      assert x[f + m] == x[f..f + |MARK|][m] == MARK[m];
      assert x[f + m + 1] == x[f..f + |MARK|][m + 1] == MARK[m + 1];
      if MarkAt(x, f + m) {
        MarkBegins(x, f + m);
        assert false;
      }
      PathInsideMark(x, f, m + 1);
      assert MARK[m..|MARK| - 1] == [MARK[m]] + MARK[m + 1..|MARK| - 1];
    }
  }

  lemma SegmentEndsBy(x: string, f: nat, segment: string)
    requires Find(segment).None? && segment <= x && MarkAt(x, f)
    ensures |segment| < f + |MARK|
  {
    if |segment| >= f + |MARK| {
      assert segment[f..f + |MARK|] == x[f..f + |MARK|];
      assert MarkAt(segment, f);
    }
  }

  /** Two texts alike through their first marker are both versioned or neither is. */
  lemma AlikeVersioned(x: string, y: string, f: nat, segment: string, known: set<string>)
    requires Fitting(segment, known)
    requires f + |MARK| <= |x| && f + |MARK| <= |y| && x[..f + |MARK|] == y[..f + |MARK|] && MarkAt(x, f)
    ensures Versioned(x, segment, known) ==> Versioned(y, segment, known) && |segment| <= f
  {
    if segment <= x {
      SegmentEndsBy(x, f, segment);
      assert segment == x[..f + |MARK|][..|segment|] == y[..|segment|];
      if |segment| <= f {
        AlikePaths(x, y, f, |segment|);
      } else {
        var m := |segment| - f;
        assert Tail(segment, m) == x[f..f + |MARK|][..m];
        PathInsideMark(x, f, m);
      }
    }
  }

  lemma ReadAlike(x: string, y: string, f: nat, segment: string, known: set<string>)
    requires Fitting(segment, known) && Find(y) == Some(f)
    requires f + |MARK| <= |x| && x[..f + |MARK|] == y[..f + |MARK|]
    ensures Find(x) == Find(y) && PathAt(x, 0) == PathAt(y, 0)
    ensures Versioned(x, segment, known) <==> Versioned(y, segment, known)
  {
    AlikeFinds(x, y, f);
    AlikePaths(x, y, f, 0);
    AlikeVersioned(x, y, f, segment, known);
    AlikeVersioned(y, x, f, segment, known);
  }

  // ---- stripping a rewritten text ------------------------------------------

  /** The rewriting of `text` from `o` on. */
  function Tagged(text: string, segment: string, known: set<string>, o: nat): string {
    Inserted(text, segment, Points(text, known), o)
  }

  /** The first marker of `text` from `o` on. */
  predicate FirstAt(text: string, o: nat, f: nat) {
    o <= f && MarkAt(text, f) && forall i: nat | o <= i < f :: !MarkAt(text, i)
  }

  lemma FindsFirst(text: string, o: nat, f: nat)
    requires FirstAt(text, o, f)
    ensures Find(text[o..]) == Some(f - o)
  {
    FindShift(text, o);
  }

  lemma Cut(head: string, mark: string, put: string, tail: string)
    ensures var x, n := head + (mark + put + tail), |head| + |mark|;
            n <= |x| && x[..n] == head + mark && x[n..] == put + tail
  {
    Regroup(mark, put, tail);
    Regroup(head, mark, put + tail);
  }

  lemma MarkCut(text: string, o: nat, f: nat)
    requires o <= f && MarkAt(text, f)
    ensures text[o..][..f - o + |MARK|] == text[o..f + |MARK|] == text[o..f] + MARK
  {
    var n := f + |MARK|;
    assert text[o..n] == text[o..f] + text[f..n];
  }

  lemma TaggedAlike(text: string, segment: string, known: set<string>, o: nat, f: nat)
    requires Clean(text, o) && FirstAt(text, o, f)
    ensures var x, y, n := Tagged(text, segment, known, o), text[o..], f - o + |MARK|;
            && n <= |x| && n <= |y| && x[..n] == y[..n] == text[o..f] + MARK
            && x[n..] == Put(segment, Points(text, known), f + |MARK|) + Tagged(text, segment, known, f + |MARK|)
  {
    InsertsOne(text, segment, known, o, f);
    Cut(text[o..f], MARK, Put(segment, Points(text, known), f + |MARK|), Tagged(text, segment, known, f + |MARK|));
    MarkCut(text, o, f);
  }

  /** The rewriting leaves where the first marker is, what path comes first and whether that is versioned. */
  lemma TaggedReadsAlike(text: string, segment: string, known: set<string>, o: nat)
    requires Clean(text, o) && Fitting(segment, known)
    ensures var x, y := Tagged(text, segment, known, o), text[o..];
            && Find(x) == Find(y) && PathAt(x, 0) == PathAt(y, 0)
            && (Versioned(x, segment, known) <==> Versioned(y, segment, known))
  {
    var x, y := Tagged(text, segment, known, o), text[o..];
    FindShift(text, o);
    if Find(y).None? {
      Untagged(text, segment, known, o);
    } else {
      TaggedAlike(text, segment, known, o, o + Find(y).value);
      ReadAlike(x, y, Find(y).value, segment, known);
    }
  }

  /** Without a marker nothing is put in and nothing is ambiguous. */
  lemma Untagged(text: string, segment: string, known: set<string>, o: nat)
    requires Clean(text, o) && forall i: nat | o <= i :: !MarkAt(text, i)
    ensures Tagged(text, segment, known, o) == text[o..]
    ensures forall k: nat | o < k :: !Ambiguous(text, segment, known, k)
  {
    NoPoints(text, known, o, |text|);
    Copies(text, segment, Points(text, known), o, |text|);
    assert text[o..|text|] == text[o..];
    forall k: nat | o < k ensures !Ambiguous(text, segment, known, k) {
      CountedAfter(text, o, k);
    }
  }

  lemma CountedAfter(text: string, o: nat, k: nat)
    requires Clean(text, o) && o < k
    ensures |MARK| <= k && Counted(text, k - |MARK|) ==> o <= k - |MARK|
  {
    if |MARK| <= k && Counted(text, k - |MARK|) && k - |MARK| < o {
      CountedMovesFree(text, k - |MARK|, o);
    }
  }

  /** Nothing is ambiguous up to the end of the first marker but, perhaps, what follows it. */
  lemma AmbiguousNext(text: string, segment: string, known: set<string>, o: nat, f: nat)
    requires Clean(text, o) && FirstAt(text, o, f)
    ensures forall k: nat | o < k < f + |MARK| :: !Ambiguous(text, segment, known, k)
  {
    FirstMarkerCounts(text, o, f);
    forall k: nat | o < k < f + |MARK| ensures !Ambiguous(text, segment, known, k) {
      CountedAfter(text, o, k);
    }
  }

  lemma NoMarkInSegment(text: string, segment: string, known: set<string>, o: nat)
    requires o <= |text| && Fitting(segment, known) && Versioned(text[o..], segment, known)
    ensures forall i: nat | o <= i < o + |segment| :: !MarkAt(text, i)
  {
    var y := text[o..];
    FindShift(text, o);
    if Find(y).Some? {
      AlikeVersioned(y, y, Find(y).value, segment, known);
    }
  }

  lemma PrefixSlice(text: string, o: nat, segment: string, z: string)
    requires o <= |text| && segment <= text[o..]
    ensures o + |segment| <= |text| && text[o..o + |segment|] == segment && (segment + z)[|segment|..] == z
  {
  }

  lemma CopiesBetween(text: string, segment: string, known: set<string>, o: nat, n: nat)
    requires Clean(text, o) && o <= n <= |text| && forall i: nat | o <= i < n :: !MarkAt(text, i)
    ensures Clean(text, n)
    ensures Tagged(text, segment, known, o) == text[o..n] + Tagged(text, segment, known, n)
  {
    FreeStays(text, o, n);
    NoPoints(text, known, o, n);
    Copies(text, segment, Points(text, known), o, n);
  }

  /** After a segment that a known path follows the scan is between markers, and the segment is copied. */
  lemma SegmentIsCopied(text: string, segment: string, known: set<string>, o: nat)
    requires Clean(text, o) && Fitting(segment, known) && Versioned(text[o..], segment, known)
    ensures Clean(text, o + |segment|)
    ensures var x := Tagged(text, segment, known, o);
            |segment| <= |x| && x[|segment|..] == Tagged(text, segment, known, o + |segment|)
  {
    var n := o + |segment|;
    PrefixSlice(text, o, segment, Tagged(text, segment, known, n));
    NoMarkInSegment(text, segment, known, o);
    CopiesBetween(text, segment, known, o, n);
  }

  lemma StripOne(x: string, f: nat, head: string, drop: nat, rest: string, segment: string, known: set<string>)
    requires Find(x) == Some(f) && x[..f + |MARK|] == head && x[f + |MARK|..] == rest
    requires drop == (if Versioned(rest, segment, known) then |segment| else 0)
    ensures drop <= |rest| && Stripped(x, segment, known) == head + Stripped(rest[drop..], segment, known)
  {
    if drop == 0 {
      assert rest[drop..] == rest;
    }
  }

  ghost predicate Plain(text: string, segment: string, known: set<string>, o: nat) {
    forall k: nat | o < k :: !Ambiguous(text, segment, known, k)
  }

  lemma {:induction false} StripPoint(text: string, segment: string, known: set<string>, n: nat)
    requires Clean(text, n) && Fitting(segment, known) && PathAt(text, n) in known
    ensures var z := Tagged(text, segment, known, n);
            Versioned(segment + z, segment, known) && (segment + z)[|segment|..] == z
  {
    var z := Tagged(text, segment, known, n);
    assert (segment + z)[|segment|..] == z;
    TaggedReadsAlike(text, segment, known, n);
    PathDrops(text, n, 0);
    PathDrops(segment + z, |segment|, 0);
  }

  lemma NothingPut(segment: string, points: set<nat>, n: nat, z: string)
    requires n !in points
    ensures Put(segment, points, n) + z == z && z[0..] == z
  {
  }

  lemma {:induction false} StripElsewhere(text: string, segment: string, known: set<string>, n: nat)
    returns (drop: nat, next: nat)
    requires Clean(text, n) && Fitting(segment, known)
    ensures var z := Tagged(text, segment, known, n);
            && drop == (if Versioned(z, segment, known) then |segment| else 0)
            && drop <= |z| && z[drop..] == Tagged(text, segment, known, next)
    ensures n <= next && Clean(text, next) && (next == n <==> !Versioned(text[n..], segment, known))
  {
    TaggedReadsAlike(text, segment, known, n);
    drop, next := 0, n;
    if Versioned(text[n..], segment, known) {
      drop, next := |segment|, n + |segment|;
      SegmentIsCopied(text, segment, known, n);
    }
  }

  /** What follows the marker that ends at `n`, as stripping reads it, and where it goes on. */
  lemma {:induction false} StripAfter(text: string, segment: string, known: set<string>, n: nat)
    returns (drop: nat, next: nat)
    requires |MARK| <= n && Clean(text, n) && Counted(text, n - |MARK|) && Fitting(segment, known)
    ensures var rest := Put(segment, Points(text, known), n) + Tagged(text, segment, known, n);
            && drop == (if Versioned(rest, segment, known) then |segment| else 0)
            && drop <= |rest| && rest[drop..] == Tagged(text, segment, known, next)
    ensures n <= next && Clean(text, next) && (next == n <==> !Ambiguous(text, segment, known, n))
  {
    if n in Points(text, known) {
      drop, next := |segment|, n;
      StripPoint(text, segment, known, n);
    } else {
      NothingPut(segment, Points(text, known), n, Tagged(text, segment, known, n));
      drop, next := StripElsewhere(text, segment, known, n);
    }
  }

  lemma TaggedHead(text: string, segment: string, known: set<string>, o: nat, f: nat)
    requires Clean(text, o) && FirstAt(text, o, f)
    ensures var x, n := Tagged(text, segment, known, o), f - o + |MARK|;
            && Find(x) == Some(f - o) && n <= |x| && x[..n] == text[o..f + |MARK|]
            && x[n..] == Put(segment, Points(text, known), f + |MARK|) + Tagged(text, segment, known, f + |MARK|)
  {
    TaggedAlike(text, segment, known, o, f);
    MarkCut(text, o, f);
    FindsFirst(text, o, f);
    AlikeFinds(Tagged(text, segment, known, o), text[o..], f - o);
  }

  /** Where stripping goes on after the first marker: further on than that only after an ambiguous reference. */
  lemma {:induction false} StripStep(text: string, segment: string, known: set<string>, o: nat, f: nat) returns (next: nat)
    requires Clean(text, o) && FirstAt(text, o, f) && Fitting(segment, known)
    ensures f + |MARK| <= next && Clean(text, next)
    ensures next == f + |MARK| <==> !Ambiguous(text, segment, known, f + |MARK|)
    ensures Stripped(Tagged(text, segment, known, o), segment, known)
         == text[o..f + |MARK|] + Stripped(Tagged(text, segment, known, next), segment, known)
  {
    var n := f + |MARK|;
    FirstMarkerCounts(text, o, f);
    var drop: nat;
    drop, next := StripAfter(text, segment, known, n);
    TaggedHead(text, segment, known, o, f);
    StripOne(Tagged(text, segment, known, o), f - o, text[o..n], drop,
             Put(segment, Points(text, known), n) + Tagged(text, segment, known, n), segment, known);
  }

  lemma Continues(text: string, o: nat, n: nat, next: nat, rest: string)
    requires o <= n <= next <= |text| && |rest| <= |text| - next
    ensures |text[o..n] + rest| <= |text| - o
    ensures text[o..n] + rest == text[o..] <==> n == next && rest == text[n..]
  {
    assert text[o..] == text[o..n] + text[n..];
    if text[o..n] + rest == text[o..] {
      assert rest == (text[o..n] + rest)[n - o..] == text[n..];
    }
  }

  lemma PlainContinues(text: string, segment: string, known: set<string>, o: nat, f: nat)
    requires Clean(text, o) && FirstAt(text, o, f)
    ensures Plain(text, segment, known, o) <==>
            !Ambiguous(text, segment, known, f + |MARK|) && Plain(text, segment, known, f + |MARK|)
  {
    AmbiguousNext(text, segment, known, o, f);
  }

  lemma {:induction false} StripsBack(text: string, segment: string, known: set<string>, o: nat) returns (back: string)
    requires Clean(text, o) && Fitting(segment, known)
    ensures back == Stripped(Tagged(text, segment, known, o), segment, known)
    ensures |back| <= |text| - o && (back == text[o..] <==> Plain(text, segment, known, o))
    decreases |text| - o
  {
    FindShift(text, o);
    if Find(text[o..]).None? {
      Untagged(text, segment, known, o);
      back := text[o..];
    } else {
      var f := o + Find(text[o..]).value;
      var next := StripStep(text, segment, known, o, f);
      var rest := StripsBack(text, segment, known, next);
      back := text[o..f + |MARK|] + rest;
      Continues(text, o, f + |MARK|, next, rest);
      PlainContinues(text, segment, known, o, f);
    }
  }

  /**
   Stripping the segments from the output restores the text exactly when no reference the
   rewriting leaves alone already reads as the segment and a known path.
   */
  lemma StrippingRestoresExactly(text: string, segment: string, known: set<string>, out: string)
    requires Fitting(segment, known) && out == Inserted(text, segment, Points(text, known), 0)
    ensures Stripped(out, segment, known) == text <==> forall k: nat :: !Ambiguous(text, segment, known, k)
  {
    var back := StripsBack(text, segment, known, 0);
    assert text[0..] == text;
  }

  // ---- the segment in use --------------------------------------------------

  predicate Hex(version: string) {
    forall i | 0 <= i < |version| :: '0' <= version[i] <= '9' || 'a' <= version[i] <= 'f'
  }

  lemma VersionTail(version: string, m: nat)
    requires Hex(version) && 1 < m < |MARK|
    ensures Tail("v/" + version + "/", m) != MARK[..m]
  {
    var tail := MARK[..m];
    assert tail[0] == '/' && tail[1] == 'a' && tail[m - 1] == MARK[m - 1];
    assert m >= 4 ==> tail[3] == 'm';
  }

  /** A version segment fits every inventory that keeps nothing below `admin/static`. */
  lemma VersionSegmentFits(version: string, known: set<string>)
    requires Hex(version) && forall p | p in known :: !("admin/static" <= p)
    ensures Fitting("v/" + version + "/", known)
  {
    var segment := "v/" + version + "/";
    forall i: nat ensures !MarkAt(segment, i) {
      if MarkAt(segment, i) {
        MarkBegins(segment, i);
        assert false;
      }
    }
    forall m, p | 0 < m < |MARK| && Tail(segment, m) == MARK[..m] && p in known
      ensures !(MARK[m..|MARK| - 1] <= p)
    {
      if m > 1 {
        VersionTail(version, m);
      }
    }
  }

  /** A text that already carries the segment is left alone and yet stripped. */
  lemma AlreadyVersionedIsNotRestored() returns (text: string, segment: string, known: set<string>)
    ensures Fitting(segment, known)
    ensures Inserted(text, segment, Points(text, known), 0) == text && Stripped(text, segment, known) != text
  {
    segment, known := "v/0/", {"a"};
    text := MARK + (segment + "a");
    VersionSegmentFits("0", known);
    assert "v/" + "0" + "/" == segment;
    assert text[|MARK|..] == segment + "a" && MarkAt(text, 0);
    assert PathAt(text, |MARK|)[0] == 'v';
    assert PathAt(segment + "a", |segment| + 1) == "";
    assert PathAt(segment + "a", |segment|) == "a";
    assert Ambiguous(text, segment, known, |MARK|);
    FirstMarkerCounts(text, 0, 0);
    NoPoints(text, known, |MARK|, |text|);
    NoPoints(text, known, 0, |MARK| - 1);
    Copies(text, segment, Points(text, known), 0, |text|);
    assert text[0..|text|] == text;
    StrippingRestoresExactly(text, segment, known, text);
  }
}
