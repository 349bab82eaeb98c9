/** Snapshotting public assets: the byte budget, the digest input, and rewriting references to versioned ones. */
module Assets {
  import opened Basics

  const MAX_BYTES: nat := 16 * 1024 * 1024

  // ---- the byte budget -----------------------------------------------------

  /** A file as the directory answers for it: refused or unreadable, or its bytes. */
  type Files = map<Bytes, Bytes>

  /** Bytes of the first `n` listed files. */
  function Total(paths: seq<Bytes>, disk: Files, n: nat): nat
    requires n <= |paths| && forall p | p in paths[..n] :: p in disk
  {
    if n == 0 then 0
    else
      assert paths[n - 1] == paths[..n][n - 1];
      assert forall p | p in paths[..n - 1] :: p in paths[..n];
      Total(paths, disk, n - 1) + |disk[paths[n - 1]]|
  }

  function Take(s: Bytes, limit: nat): Bytes {
    if |s| <= limit then s else s[..limit]
  }

  /**
   Reads every listed file or none. `read` counts the bytes pulled in: never more than one
   past the budget, whatever the files hold.
   */
  method Load(paths: seq<Bytes>, disk: Files) returns (r: Option<Files>, read: nat)
    ensures read <= 16_777_217
    ensures r.Some? ==> (forall p | p in paths :: p in disk) && Total(paths, disk, |paths|) == read <= 16_777_216
    ensures r.Some? ==> r.value.Keys == (set p | p in paths) && forall p | p in paths :: r.value[p] == disk[p]
    ensures r.None? ==> exists n :: 0 <= n <= |paths| && Stops(paths, disk, n)
  {
    var originals: Files := map[];
    var total := 0;
    var i := 0;
    while i < |paths|
      invariant 0 <= i <= |paths| && total <= MAX_BYTES
      invariant forall p | p in paths[..i] :: p in disk
      invariant total == Total(paths, disk, i)
      invariant originals.Keys == (set p | p in paths[..i]) && forall p | p in paths[..i] :: originals[p] == disk[p]
    {
      var path := paths[i];
      assert paths[..i + 1] == paths[..i] + [path];
      if path !in disk {
        assert Stops(paths, disk, i);
        return None, total;
      }
      var limit: nat := MAX_BYTES - total + 1;
      var bytes := Take(disk[path], limit);
      total := total + |bytes|;
      if total > MAX_BYTES {
        assert Stops(paths, disk, i + 1);
        return None, total;
      }
      originals := originals[path := bytes];
      i := i + 1;
    }
    assert paths[..i] == paths;
    return Some(originals), total;
  }

  /** The `n`th listed file is missing, or the first `n` files are over the budget. */
  predicate Stops(paths: seq<Bytes>, disk: Files, n: nat) {
    || (n < |paths| && paths[n] !in disk)
    || (n <= |paths| && (forall p | p in paths[..n] :: p in disk) && Total(paths, disk, n) > 16_777_216)
  }

  // ---- the digest input ----------------------------------------------------

  datatype Entry = Entry(path: Bytes, body: Bytes)

  ghost function Pow256(k: nat): nat {
    if k == 0 then 1 else 256 * Pow256(k - 1)
  }

  /** `k` bytes, most significant first. */
  function BigEndian(n: nat, k: nat): (r: Bytes)
    ensures |r| == k
  {
    if k == 0 then [] else BigEndian(n / 256, k - 1) + [(n % 256) as Byte]
  }

  function FromBigEndian(s: Bytes): nat {
    if s == [] then 0 else FromBigEndian(s[..|s| - 1]) * 256 + s[|s| - 1] as nat
  }

  lemma {:induction false} BigEndianRoundTrip(n: nat, k: nat)
    requires n < Pow256(k)
    ensures FromBigEndian(BigEndian(n, k)) == n
  {
    if k > 0 {
      BigEndianRoundTrip(n / 256, k - 1);
      var s := BigEndian(n, k);
      assert s[..k - 1] == BigEndian(n / 256, k - 1);
    }
  }

  function Block(s: Bytes): Bytes {
    BigEndian(|s|, 8) + s
  }

  function Frame(entries: seq<Entry>): Bytes {
    if entries == [] then [] else Block(entries[0].path) + Block(entries[0].body) + Frame(entries[1..])
  }

  /** Lengths that fit the eight bytes they are written in. */
  ghost predicate Fits(entries: seq<Entry>) {
    forall e | e in entries :: |e.path| < Pow256(8) && |e.body| < Pow256(8)
  }

  /** A reader of the framing. */
  function ReadBlock(s: Bytes): Option<(Bytes, Bytes)> {
    if |s| < 8 then None
    else
      var n := FromBigEndian(s[..8]);
      if |s| - 8 < n then None else Some((s[8..8 + n], s[8 + n..]))
  }

  function Unframe(s: Bytes): Option<seq<Entry>>
    decreases |s|
  {
    if s == [] then Some([])
    else match ReadBlock(s)
      case None => None
      case Some((path, after)) =>
        match ReadBlock(after)
        case None => None
        case Some((body, rest)) =>
          match Unframe(rest)
          case None => None
          case Some(entries) => Some([Entry(path, body)] + entries)
  }

  lemma ReadBlockUndoes(s: Bytes, rest: Bytes)
    requires |s| < Pow256(8)
    ensures ReadBlock(Block(s) + rest) == Some((s, rest))
  {
    BigEndianRoundTrip(|s|, 8);
    var whole := Block(s) + rest;
    assert whole[..8] == BigEndian(|s|, 8);
    assert whole[8..8 + |s|] == s;
    assert whole[8 + |s|..] == rest;
  }

  lemma UnframeOne(e: Entry, rest: Bytes)
    requires |e.path| < Pow256(8) && |e.body| < Pow256(8)
    ensures var s := Block(e.path) + (Block(e.body) + rest);
      Unframe(s) == if Unframe(rest).Some? then Some([e] + Unframe(rest).value) else None
  {
    ReadBlockUndoes(e.path, Block(e.body) + rest);
    ReadBlockUndoes(e.body, rest);
  }

  lemma {:induction false} UnframeUndoesFrame(entries: seq<Entry>)
    requires Fits(entries)
    ensures Unframe(Frame(entries)) == Some(entries)
    decreases |entries|
  {
    if entries != [] {
      var e, rest := entries[0], Frame(entries[1..]);
      assert forall x | x in entries[1..] :: x in entries;
      UnframeUndoesFrame(entries[1..]);
      UnframeOne(e, rest);
      Regroup(Block(e.path), Block(e.body), rest);
      assert Frame(entries) == Block(e.path) + (Block(e.body) + rest);
      assert [e] + entries[1..] == entries;
    }
  }

  /** The listing of a map: each path once, with its bytes. */
  ghost predicate Lists(entries: seq<Entry>, files: Files) {
    && (forall e | e in entries :: e.path in files && files[e.path] == e.body)
    && (forall p | p in files :: Entry(p, files[p]) in entries)
  }

  /** Different snapshots never feed the digest the same bytes. */
  lemma FramingIsInjective(header: Bytes, a: seq<Entry>, b: seq<Entry>, m: Files, n: Files)
    requires Fits(a) && Fits(b) && Lists(a, m) && Lists(b, n)
    ensures header + Frame(a) == header + Frame(b) ==> m == n
  {
    if header + Frame(a) == header + Frame(b) {
      assert Frame(a) == (header + Frame(a))[|header|..];
      assert Frame(b) == (header + Frame(b))[|header|..];
      UnframeUndoesFrame(a);
      UnframeUndoesFrame(b);
      assert m.Keys == n.Keys;
    }
  }

  method DigestInput(header: Bytes, entries: seq<Entry>) returns (stream: Bytes)
    ensures stream == header + Frame(entries)
  {
    stream := header;
    var i := 0;
    assert entries[0..] == entries;
    while i < |entries|
      invariant 0 <= i <= |entries|
      invariant stream + Frame(entries[i..]) == header + Frame(entries)
    {
      var e := entries[i];
      assert entries[i..][1..] == entries[i + 1..];
      ghost var was, rest := stream, Frame(entries[i + 1..]);
      stream := stream + BigEndian(|e.path|, 8) + e.path + BigEndian(|e.body|, 8) + e.body;
      assert stream + rest == was + (Block(e.path) + Block(e.body) + rest);
      i := i + 1;
    }
  }

  // ---- rewriting references ------------------------------------------------

  const MARK: string := "/admin/static/"

  predicate MarkAt(text: string, i: nat) {
    i + |MARK| <= |text| && text[i..i + |MARK|] == MARK
  }

  predicate Ends(c: char) {
    c in {'"', '\'', ')', '?', '#', ' ', '\t', '\r', '\n'}
  }

  /** Scanning from the left, where the last marker that counts and starts before `i` ends. */
  function Free(text: string, i: nat): nat {
    if i == 0 then 0
    else if MarkAt(text, i - 1) && Free(text, i - 1) <= i - 1 then i - 1 + |MARK|
    else Free(text, i - 1)
  }

  /** A marker that counts: it starts no earlier than the end of the last one that does. */
  predicate Counted(text: string, i: nat) {
    MarkAt(text, i) && Free(text, i) <= i
  }

  /** The path read from position `k` up to a terminator or the next marker. */
  function PathAt(text: string, k: nat): string
    decreases |text| - k
  {
    if k >= |text| || Ends(text[k]) || MarkAt(text, k) then "" else [text[k]] + PathAt(text, k + 1)
  }

  /** The characters that end a path in a style sheet or a script. */
  predicate Terminates(c: char) {
    c == '"' || c == '\'' || c == ')' || c == '?' || c == '#' || c == ' ' || c == '\t' || c == '\r' || c == '\n'
  }

  /** A path is the longest run from `k` on without a terminator that does not reach into the next marker. */
  lemma {:induction false} PathIsLongestRun(text: string, k: nat)
    requires k <= |text|
    ensures var n := |PathAt(text, k)|;
      && k + n <= |text| && PathAt(text, k) == text[k..k + n]
      && (forall i | k <= i < k + n :: !Terminates(text[i]) && !MarkAt(text, i))
      && (k + n == |text| || Terminates(text[k + n]) || MarkAt(text, k + n))
    decreases |text| - k
  {
    if k < |text| && !Ends(text[k]) && !MarkAt(text, k) {
      PathIsLongestRun(text, k + 1);
      assert text[k..k + 1 + |PathAt(text, k + 1)|] == [text[k]] + text[k + 1..k + 1 + |PathAt(text, k + 1)|];
    }
  }

  /** Where the version segment goes: right after a counted marker that is followed by a known path. */
  predicate Point(text: string, known: set<string>, k: nat) {
    k >= |MARK| && Counted(text, k - |MARK|) && PathAt(text, k) in known
  }

  function Points(text: string, known: set<string>): set<nat> {
    set k: nat | k <= |text| && Point(text, known, k)
  }

  function Put(segment: string, points: set<nat>, k: nat): string {
    if k in points then segment else ""
  }

  /** The characters of `text` from `k` on, with `segment` put in at every point after `k`. */
  function Inserted(text: string, segment: string, points: set<nat>, k: nat): string
    decreases |text| - k
  {
    if k >= |text| then ""
    else [text[k]] + (Put(segment, points, k + 1) + Inserted(text, segment, points, k + 1))
  }

  /** `out` read as a text from position `k` on, with `size` characters deleted at every point after `k`. */
  function Deleted(out: string, size: nat, points: set<nat>, k: nat): string
    decreases |out|
  {
    if out == "" then ""
    else
      var rest := out[1..];
      var skip := if k + 1 in points && size <= |rest| then size else 0;
      [out[0]] + Deleted(rest[skip..], size, points, k + 1)
  }

  // ---- as it runs: split at the markers and glue --------------------------

  /** The leftmost marker. */
  function Find(text: string): (r: Option<nat>)
    ensures r.Some? ==> MarkAt(text, r.value) && forall i: nat | i < r.value :: !MarkAt(text, i)
    ensures r.None? ==> forall i: nat :: !MarkAt(text, i)
  {
    FindFrom(text, 0)
  }

  function FindFrom(text: string, from: nat): (r: Option<nat>)
    ensures r.Some? ==> from <= r.value && MarkAt(text, r.value) && forall i: nat | from <= i < r.value :: !MarkAt(text, i)
    ensures r.None? ==> forall i: nat | from <= i :: !MarkAt(text, i)
    decreases |text| - from
  {
    if from + |MARK| > |text| then None
    else if MarkAt(text, from) then Some(from)
    else FindFrom(text, from + 1)
  }

  function Split(text: string): (parts: seq<string>)
    ensures parts != []
    decreases |text|
  {
    match Find(text)
    case None => [text]
    case Some(i) => [text[..i]] + Split(text[i + |MARK|..])
  }

  /** The path a reference names. */
  function PathOf(suffix: string): string {
    if suffix == "" || Ends(suffix[0]) then "" else [suffix[0]] + PathOf(suffix[1..])
  }

  /** Puts parts back together, each after a marker and, when it names a known path, `segment`. */
  function Glue(parts: seq<string>, segment: string, known: set<string>): string {
    if parts == [] then ""
    else MARK + (if PathOf(parts[0]) in known then segment else "") + parts[0] + Glue(parts[1..], segment, known)
  }

  function Rejoined(text: string, segment: string, known: set<string>): string {
    Split(text)[0] + Glue(Split(text)[1..], segment, known)
  }

  /**
   The text with `segment` put in right after exactly those leftmost non-overlapping markers
   that a known path follows. The versioned prefix is the marker and that segment.
   */
  method Rewrite(text: string, segment: string, known: set<string>) returns (out: string)
    ensures out == Inserted(text, segment, Points(text, known), 0)
  {
    var prefix := MARK + segment;
    var parts := Split(text);
    out := parts[0];
    var i := 1;
    while i < |parts|
      invariant 1 <= i <= |parts|
      invariant out + Glue(parts[i..], segment, known) == Rejoined(text, segment, known)
    {
      assert parts[i..][1..] == parts[i + 1..];
      ghost var piece := MARK + (if PathOf(parts[i]) in known then segment else "") + parts[i];
      Regroup(out, piece, Glue(parts[i + 1..], segment, known));
      ghost var was := out;
      out := out + (if PathOf(parts[i]) in known then prefix else MARK);
      out := out + parts[i];
      assert out == was + piece;
      i := i + 1;
    }
    RejoinedIsInserted(text, segment, known, 0);
    assert text[0..] == text;
  }

  /** No counted marker reaches across `o`. */
  predicate Clean(text: string, o: nat) {
    o <= |text| && Free(text, o) <= o
  }

  lemma MarkShift(text: string, o: nat, i: nat)
    requires o <= |text|
    ensures MarkAt(text[o..], i) == MarkAt(text, o + i)
  {
    if o + i + |MARK| <= |text| {
      assert text[o..][i..i + |MARK|] == text[o + i..o + i + |MARK|];
    }
  }

  lemma {:induction false} CountedMovesFree(text: string, i: nat, k: nat)
    requires Counted(text, i) && i < k
    ensures i + |MARK| <= Free(text, k)
    decreases k
  {
    if i < k - 1 {
      CountedMovesFree(text, i, k - 1);
    }
  }

  lemma {:induction false} FreeIsAnEnd(text: string, k: nat) returns (i: nat)
    requires Free(text, k) > 0
    ensures i < k && Counted(text, i) && Free(text, k) == i + |MARK|
    decreases k
  {
    if Counted(text, k - 1) {
      i := k - 1;
    } else {
      i := FreeIsAnEnd(text, k - 1);
    }
  }

  /** Counted markers are the leftmost non-overlapping ones: no two overlap, and one is passed over only for an earlier one it overlaps. */
  lemma CountedIsLeftmost(text: string, i: nat)
    requires MarkAt(text, i)
    ensures Counted(text, i) <==> !exists j: nat :: j < i && i < j + |MARK| && Counted(text, j)
  {
    if Counted(text, i) {
      forall j: nat | j < i && i < j + |MARK|
        ensures !Counted(text, j)
      {
        if Counted(text, j) {
          CountedMovesFree(text, j, i);
        }
      }
    } else {
      var j := FreeIsAnEnd(text, i);
    }
  }

  lemma {:induction false} FreeStays(text: string, o: nat, k: nat)
    requires o <= k && forall i: nat | o <= i < k :: !Counted(text, i)
    ensures Free(text, k) == Free(text, o)
    decreases k
  {
    if o < k {
      FreeStays(text, o, k - 1);
      assert !Counted(text, k - 1);
    }
  }

  /** From a clean position on, the first marker counts and those it overlaps do not. */
  lemma FirstMarkerCounts(text: string, o: nat, f: nat)
    requires Clean(text, o) && o <= f && MarkAt(text, f) && forall i: nat | o <= i < f :: !MarkAt(text, i)
    ensures Counted(text, f) && Clean(text, f + |MARK|)
    ensures forall i: nat | o <= i < f + |MARK| && i != f :: !Counted(text, i)
  {
    FreeStays(text, o, f);
    forall i: nat | f < i < f + |MARK|
      ensures !Counted(text, i)
    {
      CountedMovesFree(text, f, i);
    }
    FreeStays(text, f + 1, f + |MARK|);
  }

  lemma {:induction false} PathShift(text: string, o: nat, part: string)
    requires o <= |text| && part <= text[o..]
    requires forall p: nat | o <= p < o + |part| :: !MarkAt(text, p)
    requires o + |part| == |text| || MarkAt(text, o + |part|)
    ensures PathOf(part) == PathAt(text, o)
    decreases |part|
  {
    if part != "" && !Ends(part[0]) {
      assert part[1..] <= text[o + 1..];
      PathShift(text, o + 1, part[1..]);
    }
  }

  /** Between points the text is copied. */
  lemma {:induction false} Copies(text: string, segment: string, points: set<nat>, k: nat, m: nat)
    requires k <= m <= |text| && forall i: nat | k < i <= m :: i !in points
    ensures Inserted(text, segment, points, k) == text[k..m] + Inserted(text, segment, points, m)
    decreases m - k
  {
    var tail := Inserted(text, segment, points, m);
    if k < m {
      Copies(text, segment, points, k + 1, m);
      assert text[k..m] == [text[k]] + text[k + 1..m];
      assert Put(segment, points, k + 1) == "" && "" + (text[k + 1..m] + tail) == text[k + 1..m] + tail;
      Regroup([text[k]], text[k + 1..m], tail);
    } else {
      assert text[k..m] == "" && "" + tail == tail;
    }
  }

  lemma NoPoints(text: string, known: set<string>, o: nat, m: nat)
    requires Clean(text, o) && m <= |text| && forall i: nat | o <= i && i + |MARK| <= m :: !Counted(text, i)
    ensures forall i: nat | o < i <= m :: i !in Points(text, known)
  {
    forall i: nat | o < i <= m
      ensures i !in Points(text, known)
    {
      if i >= |MARK| && i - |MARK| < o {
        if Counted(text, i - |MARK|) {
          CountedMovesFree(text, i - |MARK|, o);
        }
      }
    }
  }

  lemma Assemble(a: string, c: char, head: string, mark: string, put: string, tail: string)
    requires a + [c] == head + mark
    ensures a + ([c] + (put + tail)) == head + (mark + put + tail)
  {
    Regroup(a, [c], put + tail);
    Regroup(head, mark, put + tail);
    Regroup(mark, put, tail);
  }

  lemma SplitAtMark(text: string, o: nat, f: nat)
    requires o <= f && MarkAt(text, f)
    ensures text[o..f + |MARK| - 1] + [text[f + |MARK| - 1]] == text[o..f] + MARK
  {
    var next := f + |MARK|;
    assert text[o..next - 1] + [text[next - 1]] == text[o..next];
    assert text[o..next] == text[o..f] + text[f..next];
  }

  /** One marker on: what the text before it, the marker and its point come to. */
  lemma InsertsOne(text: string, segment: string, known: set<string>, o: nat, f: nat)
    requires Clean(text, o) && o <= f && MarkAt(text, f) && forall i: nat | o <= i < f :: !MarkAt(text, i)
    ensures var next, points := f + |MARK|, Points(text, known);
      && Inserted(text, segment, points, o)
         == text[o..f] + (MARK + Put(segment, points, next) + Inserted(text, segment, points, next))
      && (next in points <==> PathAt(text, next) in known)
  {
    var next, points := f + |MARK|, Points(text, known);
    FirstMarkerCounts(text, o, f);
    NoPoints(text, known, o, next - 1);
    Copies(text, segment, points, o, next - 1);
    SplitAtMark(text, o, f);
    Assemble(text[o..next - 1], text[next - 1], text[o..f], MARK,
             Put(segment, points, next), Inserted(text, segment, points, next));
  }

  lemma FirstPart(text: string, o: nat)
    requires o <= |text|
    ensures PathOf(Split(text[o..])[0]) == PathAt(text, o)
  {
    var t := text[o..];
    var part := Split(t)[0];
    forall p: nat | o <= p < o + |part|
      ensures !MarkAt(text, p)
    {
      MarkShift(text, o, p - o);
    }
    MarkShift(text, o, |part|);
    PathShift(text, o, part);
  }

  lemma GlueFirst(parts: seq<string>, segment: string, known: set<string>)
    requires parts != []
    ensures Glue(parts, segment, known)
         == MARK + (if PathOf(parts[0]) in known then segment else "") + (parts[0] + Glue(parts[1..], segment, known))
  {
    Regroup(MARK + (if PathOf(parts[0]) in known then segment else ""), parts[0], Glue(parts[1..], segment, known));
  }

  lemma RejoinedFirst(t: string, segment: string, known: set<string>)
    requires Find(t).Some?
    ensures var i := Find(t).value; var rest := t[i + |MARK|..];
      Rejoined(t, segment, known)
      == t[..i] + (MARK + (if PathOf(Split(rest)[0]) in known then segment else "") + Rejoined(rest, segment, known))
  {
    var rest := t[Find(t).value + |MARK|..];
    assert Split(t)[1..] == Split(rest);
    GlueFirst(Split(rest), segment, known);
  }

  lemma FindShift(text: string, o: nat)
    requires o <= |text|
    ensures var found := Find(text[o..]);
      && (found.Some? ==> MarkAt(text, o + found.value) && forall i: nat | o <= i < o + found.value :: !MarkAt(text, i))
      && (found.None? ==> forall i: nat | o <= i :: !MarkAt(text, i))
  {
    forall i: nat | o <= i
      ensures MarkAt(text, i) == MarkAt(text[o..], i - o)
    {
      MarkShift(text, o, i - o);
    }
  }

  /** Splitting and gluing inserts at exactly the points. */
  lemma {:induction false} RejoinedIsInserted(text: string, segment: string, known: set<string>, o: nat)
    requires Clean(text, o)
    ensures Rejoined(text[o..], segment, known) == Inserted(text, segment, Points(text, known), o)
    decreases |text| - o
  {
    var t := text[o..];
    var found := Find(t);
    FindShift(text, o);
    if found.None? {
      NoPoints(text, known, o, |text|);
      Copies(text, segment, Points(text, known), o, |text|);
      assert Rejoined(t, segment, known) == t + "";
    } else {
      var f, next := o + found.value, o + found.value + |MARK|;
      assert t[found.value + |MARK|..] == text[next..] && t[..found.value] == text[o..f];
      FirstMarkerCounts(text, o, f);
      RejoinedIsInserted(text, segment, known, next);
      FirstPart(text, next);
      RejoinedFirst(t, segment, known);
      InsertsOne(text, segment, known, o, f);
    }
  }

  lemma DeletesOne(c: char, segment: string, points: set<nat>, k: nat, tail: string)
    ensures Deleted([c] + (Put(segment, points, k + 1) + tail), |segment|, points, k)
         == [c] + Deleted(tail, |segment|, points, k + 1)
  {
    var put := Put(segment, points, k + 1);
    var out := [c] + (put + tail);
    assert out[1..] == put + tail;
    assert (put + tail)[|put|..] == tail;
  }

  /** Deleting what was put in at the points restores the text, whatever the points. */
  lemma {:induction false} DeletingRestores(text: string, segment: string, points: set<nat>, k: nat, out: string)
    requires k <= |text| && out == Inserted(text, segment, points, k)
    ensures Deleted(out, |segment|, points, k) == text[k..]
    decreases |text| - k
  {
    if k == |text| {
      assert text[k..] == "" && out == "";
    } else {
      var tail := Inserted(text, segment, points, k + 1);
      DeletingRestores(text, segment, points, k + 1, tail);
      DeletesOne(text[k], segment, points, k, tail);
      assert text[k..] == [text[k]] + text[k + 1..];
    }
  }

  /** Taking the inserted segments out of a rewritten text restores it. */
  lemma RewritingIsUndone(text: string, segment: string, known: set<string>, out: string)
    requires out == Inserted(text, segment, Points(text, known), 0)
    ensures Deleted(out, |segment|, Points(text, known), 0) == text
  {
    DeletingRestores(text, segment, Points(text, known), 0, out);
    assert text[0..] == text;
  }

  /** With nothing known there are no points and nothing changes. */
  lemma UnknownIsUntouched(text: string, segment: string)
    ensures Points(text, {}) == {} && Inserted(text, segment, {}, 0) == text
  {
    Copies(text, segment, {}, 0, |text|);
    assert text[0..|text|] == text;
  }
}
