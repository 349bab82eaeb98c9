/** Pulling the first balanced object out of a reply, and why a printed JSON object always survives it. */
module JsonScanner {
  import opened Basics

  // ---- what a balanced span is ---------------------------------------------

  /** Where a reader stands: outside text, inside a text literal, or just after a backslash in one. */
  datatype Lex = Plain | InText | AfterSlash

  function Read(l: Lex, c: char): Lex {
    match l
    case Plain => if c == '"' then InText else Plain
    case InText => if c == '\\' then AfterSlash else if c == '"' then Plain else InText
    case AfterSlash => InText
  }

  function LexAt(s: string, n: nat): Lex
    requires n <= |s|
  {
    if n == 0 then Plain else Read(LexAt(s, n - 1), s[n - 1])
  }

  function Weight(c: char): int {
    if c == '{' then 1 else if c == '}' then -1 else 0
  }

  /** Opening braces less closing ones among the first `n` characters, text literals aside. */
  function Depth(s: string, n: nat): int
    requires n <= |s|
  {
    if n == 0 then 0
    else Depth(s, n - 1) + if LexAt(s, n - 1).Plain? then Weight(s[n - 1]) else 0
  }

  predicate Balanced(s: string, n: nat) {
    0 < n <= |s| && LexAt(s, n).Plain? && Depth(s, n) == 0
  }

  predicate FirstBrace(s: string, start: nat) {
    start < |s| && s[start] == '{' && forall i | 0 <= i < start :: s[i] != '{'
  }

  ghost predicate ShortestSpan(s: string, span: string) {
    span <= s && Balanced(s, |span|) && forall n: nat | n < |span| :: !Balanced(s, n)
  }

  /** The shortest balanced span that starts at the first opening brace. */
  ghost predicate Answers(s: string, r: Option<string>) {
    match r
    case None => forall start: nat, n: nat | FirstBrace(s, start) :: !Balanced(s[start..], n)
    case Some(span) => exists start: nat :: FirstBrace(s, start) && ShortestSpan(s[start..], span)
  }

  lemma OneFirstBrace(s: string, a: nat, b: nat)
    requires FirstBrace(s, a) && FirstBrace(s, b)
    ensures a == b
  {
  }

  lemma SameShortest(s: string, a: string, b: string)
    requires ShortestSpan(s, a) && ShortestSpan(s, b)
    ensures a == b
  {
  }

  lemma AnswerIsUnique(s: string, r: Option<string>, t: Option<string>)
    requires Answers(s, r) && Answers(s, t)
    ensures r == t
  {
    if r.Some? && t.Some? {
      var a: nat :| FirstBrace(s, a) && ShortestSpan(s[a..], r.value);
      var b: nat :| FirstBrace(s, b) && ShortestSpan(s[b..], t.value);
      OneFirstBrace(s, a, b);
      SameShortest(s[a..], r.value, t.value);
    }
  }

  // ---- the scanner ---------------------------------------------------------

  method FindBrace(s: string) returns (r: Option<nat>)
    ensures r.Some? ==> FirstBrace(s, r.value)
    ensures r.None? ==> '{' !in s
  {
    var i := 0;
    while i < |s|
      invariant 0 <= i <= |s| && '{' !in s[..i]
    {
      if s[i] == '{' {
        return Some(i);
      }
      i := i + 1;
    }
    return None;
  }

  method Extract(s: string) returns (r: Option<string>)
    ensures Answers(s, r)
  {
    var found := FindBrace(s);
    if found.None? {
      return None;
    }
    var start := found.value;
    var t := s[start..];
    var depth: nat := 0;
    var inText, escaped := false, false;
    var i := 0;
    while i < |t|
      invariant 0 <= i <= |t|
      invariant LexAt(t, i) == if !inText then Plain else if escaped then AfterSlash else InText
      invariant escaped ==> inText
      invariant depth == Depth(t, i) && (i > 0 ==> depth > 0)
      invariant forall n: nat | n <= i :: !Balanced(t, n)
    {
      var c := t[i];
      if inText {
        if escaped {
          escaped := false;
        } else if c == '\\' {
          escaped := true;
        } else if c == '"' {
          inText := false;
        }
      } else if c == '"' {
        inText := true;
      } else if c == '{' {
        depth := depth + 1;
      } else if c == '}' {
        depth := depth - 1;
        if depth == 0 {
          assert ShortestSpan(s[start..], t[..i + 1]);
          return Some(t[..i + 1]);
        }
      }
      i := i + 1;
    }
    forall other: nat, n: nat | FirstBrace(s, other)
      ensures !Balanced(s[other..], n)
    {
      OneFirstBrace(s, start, other);
    }
    return None;
  }

  // ---- JSON texts (RFC 8259) -----------------------------------------------

  /** One character of a string as section 7 of RFC 8259 spells it. */
  datatype Piece = Raw(c: char) | Escape(c: char) | Unicode(hex: string)

  predicate HexDigit(c: char) {
    '0' <= c <= '9' || 'a' <= c <= 'f' || 'A' <= c <= 'F'
  }

  predicate PieceOk(p: Piece) {
    match p
    case Raw(c) => c >= ' ' && c != '"' && c != '\\'
    case Escape(c) => c in {'"', '\\', '/', 'b', 'f', 'n', 'r', 't'}
    case Unicode(hex) => |hex| == 4 && forall i | 0 <= i < 4 :: HexDigit(hex[i])
  }

  function PrintPiece(p: Piece): string {
    match p
    case Raw(c) => [c]
    case Escape(c) => ['\\', c]
    case Unicode(hex) => "\\u" + hex
  }

  function PrintPieces(ps: seq<Piece>): string {
    if ps == [] then "" else PrintPiece(ps[0]) + PrintPieces(ps[1..])
  }

  function PrintText(ps: seq<Piece>): string {
    "\"" + PrintPieces(ps) + "\""
  }

  /** A JSON text: every spelling of a value, with the whitespace around each token. */
  datatype Doc =
    | Word(word: string)
    | Text(pieces: seq<Piece>)
    | List(pad: string, items: seq<Item>)
    | Object(pad: string, members: seq<Member>)
  datatype Item = Item(lead: string, value: Doc, trail: string)
  datatype Member = Member(lead: string, key: seq<Piece>, gap: string, item: Item)

  /** Whitespace, numbers and the three names hold no quote and no brace. */
  predicate Blank(s: string) {
    forall c | c in s :: c in {' ', '\t', '\n', '\r'}
  }

  predicate WordOk(s: string) {
    s in {"null", "true", "false"} || (s != "" && forall c | c in s :: '0' <= c <= '9' || c in {'-', '+', '.', 'e', 'E'})
  }

  ghost predicate DocOk(d: Doc)
    decreases d, 1
  {
    match d
    case Word(w) => WordOk(w)
    case Text(ps) => forall p | p in ps :: PieceOk(p)
    case List(pad, items) => Blank(pad) && forall x | x in items :: ItemOk(x)
    case Object(pad, members) => Blank(pad) && forall m | m in members :: MemberOk(m)
  }

  ghost predicate ItemOk(x: Item)
    decreases x, 1
  {
    Blank(x.lead) && Blank(x.trail) && DocOk(x.value)
  }

  ghost predicate MemberOk(m: Member)
    decreases m, 1
  {
    Blank(m.lead) && Blank(m.gap) && (forall p | p in m.key :: PieceOk(p)) && ItemOk(m.item)
  }

  function Print(d: Doc): string
    decreases d, 1
  {
    match d
    case Word(w) => w
    case Text(ps) => PrintText(ps)
    case List(pad, items) => "[" + pad + PrintItems(items) + "]"
    case Object(pad, members) => "{" + pad + PrintMembers(members) + "}"
  }

  function PrintItem(x: Item): string
    decreases x, 1
  {
    x.lead + Print(x.value) + x.trail
  }

  function PrintItems(items: seq<Item>): string
    decreases items, 0
  {
    if items == [] then ""
    else if |items| == 1 then PrintItem(items[0])
    else PrintItem(items[0]) + "," + PrintItems(items[1..])
  }

  function PrintMember(m: Member): string
    decreases m, 1
  {
    m.lead + PrintText(m.key) + m.gap + ":" + PrintItem(m.item)
  }

  function PrintMembers(members: seq<Member>): string
    decreases members, 0
  {
    if members == [] then ""
    else if |members| == 1 then PrintMember(members[0])
    else PrintMember(members[0]) + "," + PrintMembers(members[1..])
  }

  // ---- neutral text --------------------------------------------------------

  /** Leaves a reader outside text at the depth it came with, and never dips below it. */
  ghost predicate Neutral(s: string) {
    LexAt(s, |s|).Plain? && Depth(s, |s|) == 0 && forall k | 0 <= k <= |s| :: Depth(s, k) >= 0
  }

  lemma {:induction false} Front(a: string, b: string, k: nat)
    requires k <= |a|
    ensures LexAt(a + b, k) == LexAt(a, k) && Depth(a + b, k) == Depth(a, k)
  {
    if k > 0 {
      Front(a, b, k - 1);
      assert (a + b)[k - 1] == a[k - 1];
    }
  }

  lemma {:induction false} Back(a: string, b: string, k: nat)
    requires k <= |b| && LexAt(a, |a|).Plain?
    ensures LexAt(a + b, |a| + k) == LexAt(b, k) && Depth(a + b, |a| + k) == Depth(a, |a|) + Depth(b, k)
  {
    if k == 0 {
      Front(a, b, |a|);
    } else {
      Back(a, b, k - 1);
      assert (a + b)[|a| + k - 1] == b[k - 1];
    }
  }

  lemma NeutralBoth(a: string, b: string)
    requires Neutral(a) && Neutral(b)
    ensures Neutral(a + b)
  {
    Back(a, b, |b|);
    forall k | 0 <= k <= |a + b|
      ensures Depth(a + b, k) >= 0
    {
      if k <= |a| {
        Front(a, b, k);
      } else {
        Back(a, b, k - |a|);
      }
    }
  }

  predicate Bland(c: char) {
    c != '"' && c != '{' && c != '}'
  }

  lemma {:induction false} BlandIsNeutral(s: string)
    requires forall c | c in s :: Bland(c)
    ensures Neutral(s)
  {
    if s != "" {
      var n := |s| - 1;
      assert forall c | c in s[..n] :: c in s;
      BlandIsNeutral(s[..n]);
      assert s[n] in s;
      assert Neutral([s[n]]) by {
        assert LexAt([s[n]], 1) == Read(LexAt([s[n]], 0), s[n]);
        assert Depth([s[n]], 1) == Depth([s[n]], 0);
      }
      NeutralBoth(s[..n], [s[n]]);
      assert s == s[..n] + [s[n]];
    }
  }

  /** Inside a text literal nothing counts until it ends. */
  ghost predicate Inside(s: string) {
    && |s| > 0 && LexAt(s, |s|).InText? && forall k | 0 <= k <= |s| :: Depth(s, k) == 0
  }

  lemma {:induction false} InsideMore(s: string, c: char)
    requires |s| > 0 && !LexAt(s, |s|).Plain? && forall k | 0 <= k <= |s| :: Depth(s, k) == 0
    ensures LexAt(s + [c], |s| + 1) == Read(LexAt(s, |s|), c)
    ensures forall k | 0 <= k <= |s| + 1 :: Depth(s + [c], k) == 0
  {
    Front(s, [c], |s|);
    forall k | 0 <= k <= |s| + 1
      ensures Depth(s + [c], k) == 0
    {
      if k <= |s| {
        Front(s, [c], k);
      }
    }
  }

  lemma {:induction false} InsidePlain(s: string, more: string)
    requires Inside(s) && forall c | c in more :: c != '"' && c != '\\'
    ensures Inside(s + more)
    decreases |more|
  {
    if more == "" {
      assert s + more == s;
    } else {
      assert more[0] in more;
      InsideMore(s, more[0]);
      assert forall c | c in more[1..] :: c in more;
      InsidePlain(s + [more[0]], more[1..]);
      assert s + more == (s + [more[0]]) + more[1..];
    }
  }

  lemma InsidePiece(s: string, p: Piece)
    requires Inside(s) && PieceOk(p)
    ensures Inside(s + PrintPiece(p))
  {
    match p
    case Raw(c) => InsidePlain(s, [c]);
    case Escape(c) =>
      InsideMore(s, '\\');
      InsideMore(s + ['\\'], c);
      assert s + ['\\', c] == (s + ['\\']) + [c];
    case Unicode(hex) =>
      InsideMore(s, '\\');
      InsideMore(s + ['\\'], 'u');
      InsidePlain(s + ['\\'] + ['u'], hex);
      assert s + ("\\u" + hex) == (s + ['\\'] + ['u']) + hex;
  }

  lemma {:induction false} InsidePieces(s: string, ps: seq<Piece>)
    requires Inside(s) && forall p | p in ps :: PieceOk(p)
    ensures Inside(s + PrintPieces(ps))
    decreases |ps|
  {
    if ps == [] {
      assert s + "" == s;
    } else {
      assert ps[0] in ps;
      InsidePiece(s, ps[0]);
      assert forall p | p in ps[1..] :: p in ps;
      InsidePieces(s + PrintPiece(ps[0]), ps[1..]);
      Regroup(s, PrintPiece(ps[0]), PrintPieces(ps[1..]));
    }
  }

  /** A text literal is neutral whatever braces and quotes it spells. */
  lemma TextIsNeutral(ps: seq<Piece>)
    requires forall p | p in ps :: PieceOk(p)
    ensures Neutral(PrintText(ps))
  {
    var open := "\"";
    assert LexAt(open, 1) == Read(LexAt(open, 0), '"');
    assert Depth(open, 1) == Depth(open, 0);
    InsidePieces(open, ps);
    InsideMore(open + PrintPieces(ps), '"');
  }

  /** Braces around neutral text are balanced at their end and nowhere before. */
  lemma Wrap(x: string)
    requires Neutral(x)
    ensures Neutral("{" + x + "}")
    ensures forall k | 0 < k < |x| + 2 :: Depth("{" + x + "}", k) > 0
  {
    var open, whole := "{", "{" + x + "}";
    assert LexAt(open, 1) == Read(LexAt(open, 0), '{');
    assert Depth(open, 1) == Depth(open, 0) + 1;
    assert whole == open + (x + "}");
    forall k | 0 < k < |whole|
      ensures Depth(whole, k) > 0
    {
      Back(open, x + "}", k - 1);
      Front(x, "}", k - 1);
    }
    Back(open, x + "}", |x|);
    Front(x, "}", |x|);
    assert whole[|x| + 1] == '}';
    assert LexAt(whole, |x| + 1).Plain? && Depth(whole, |x| + 1) == 1;
  }

  // ---- every JSON text is neutral ------------------------------------------

  lemma BlankIsNeutral(s: string)
    requires Blank(s)
    ensures Neutral(s)
  {
    BlandIsNeutral(s);
  }

  lemma WordIsNeutral(w: string)
    requires WordOk(w)
    ensures Neutral(w)
  {
    BlandIsNeutral(w);
  }

  lemma {:induction false} DocIsNeutral(d: Doc)
    requires DocOk(d)
    ensures Neutral(Print(d))
    decreases d, 1
  {
    match d
    case Word(w) => WordIsNeutral(w);
    case Text(ps) => TextIsNeutral(ps);
    case List(pad, items) =>
      BlankIsNeutral(pad);
      ItemsAreNeutral(items);
      BlandIsNeutral("[");
      BlandIsNeutral("]");
      NeutralBoth("[", pad);
      NeutralBoth("[" + pad, PrintItems(items));
      NeutralBoth("[" + pad + PrintItems(items), "]");
    case Object(pad, members) =>
      BlankIsNeutral(pad);
      MembersAreNeutral(members);
      NeutralBoth(pad, PrintMembers(members));
      Wrap(pad + PrintMembers(members));
      assert Print(d) == "{" + (pad + PrintMembers(members)) + "}";
  }

  lemma {:induction false} ItemIsNeutral(x: Item)
    requires ItemOk(x)
    ensures Neutral(PrintItem(x))
    decreases x, 1
  {
    BlankIsNeutral(x.lead);
    DocIsNeutral(x.value);
    BlankIsNeutral(x.trail);
    NeutralBoth(x.lead, Print(x.value));
    NeutralBoth(x.lead + Print(x.value), x.trail);
  }

  lemma {:induction false} ItemsAreNeutral(items: seq<Item>)
    requires forall x | x in items :: ItemOk(x)
    ensures Neutral(PrintItems(items))
    decreases items, 0
  {
    if items != [] {
      assert items[0] in items;
      ItemIsNeutral(items[0]);
      if |items| > 1 {
        assert forall x | x in items[1..] :: x in items;
        ItemsAreNeutral(items[1..]);
        BlandIsNeutral(",");
        NeutralBoth(PrintItem(items[0]), ",");
        NeutralBoth(PrintItem(items[0]) + ",", PrintItems(items[1..]));
      }
    }
  }

  lemma {:induction false} MemberIsNeutral(m: Member)
    requires MemberOk(m)
    ensures Neutral(PrintMember(m))
    decreases m, 1
  {
    BlankIsNeutral(m.lead);
    TextIsNeutral(m.key);
    BlankIsNeutral(m.gap);
    BlandIsNeutral(":");
    ItemIsNeutral(m.item);
    NeutralBoth(m.lead, PrintText(m.key));
    NeutralBoth(m.lead + PrintText(m.key), m.gap);
    NeutralBoth(m.lead + PrintText(m.key) + m.gap, ":");
    NeutralBoth(m.lead + PrintText(m.key) + m.gap + ":", PrintItem(m.item));
  }

  lemma {:induction false} MembersAreNeutral(members: seq<Member>)
    requires forall m | m in members :: MemberOk(m)
    ensures Neutral(PrintMembers(members))
    decreases members, 0
  {
    if members != [] {
      assert members[0] in members;
      MemberIsNeutral(members[0]);
      if |members| > 1 {
        assert forall m | m in members[1..] :: m in members;
        MembersAreNeutral(members[1..]);
        BlandIsNeutral(",");
        NeutralBoth(PrintMember(members[0]), ",");
        NeutralBoth(PrintMember(members[0]) + ",", PrintMembers(members[1..]));
      }
    }
  }

  /** Any JSON object, however it is spelled, comes back exactly, whatever follows it and whatever brace-free text precedes it. */
  lemma PrintedObjectIsExtracted(before: string, d: Doc, after: string)
    requires '{' !in before && d.Object? && DocOk(d)
    ensures Answers(before + Print(d) + after, Some(Print(d)))
  {
    var s, span := before + Print(d) + after, Print(d);
    var x := d.pad + PrintMembers(d.members);
    BlankIsNeutral(d.pad);
    MembersAreNeutral(d.members);
    NeutralBoth(d.pad, PrintMembers(d.members));
    Wrap(x);
    assert span == "{" + x + "}";
    assert s[|before|..] == span + after;
    assert s[..|before|] == before;
    Front(span, after, |span|);
    forall n: nat | n < |span|
      ensures !Balanced(span + after, n)
    {
      Front(span, after, n);
    }
    assert FirstBrace(s, |before|) && ShortestSpan(s[|before|..], span);
  }
}
