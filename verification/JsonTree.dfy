/** JSON values, the height that bounds every walk over them, and the reading order of keys. */
module JsonTree {
  import opened Basics

  datatype Json =
    | Null
    | Bool(truth: bool)
    | Num(digits: string)
    | Str(text: string)
    | Arr(items: seq<Json>)
    | Obj(fields: map<string, Json>)

  /** The members of an object, and none for anything else. */
  function Fields(v: Option<Json>): map<string, Json> {
    if v.Some? && v.value.Obj? then v.value.fields else map[]
  }

  function Items(v: Option<Json>): seq<Json> {
    if v.Some? && v.value.Arr? then v.value.items else []
  }

  function Lookup(m: map<string, Json>, key: string): Option<Json> {
    if key in m then Some(m[key]) else None
  }

  function Get(v: Option<Json>, key: string): Option<Json> {
    Lookup(Fields(v), key)
  }

  function ItemAt(items: seq<Json>, i: nat): Option<Json> {
    if i < |items| then Some(items[i]) else None
  }

  predicate IsObj(v: Option<Json>) {
    v.Some? && v.value.Obj?
  }

  predicate HoldsObjects(v: Option<Json>) {
    exists i :: 0 <= i < |Items(v)| && Items(v)[i].Obj?
  }

  // ---- height --------------------------------------------------------------

  ghost function Height(j: Json): (h: nat)
    ensures h >= 1
    decreases j, 1
  {
    match j
    case Arr(items) => 1 + ItemsHeight(j, |items|)
    case Obj(fields) => 1 + KeysHeight(j, fields.Keys)
    case _ => 1
  }

  ghost function ItemsHeight(j: Json, n: nat): (h: nat)
    requires j.Arr? && n <= |j.items|
    ensures forall i | 0 <= i < n :: Height(j.items[i]) <= h
    decreases j, 0, n
  {
    if n == 0 then 0 else Max(ItemsHeight(j, n - 1), Height(j.items[n - 1]))
  }

  ghost function KeysHeight(j: Json, keys: set<string>): (h: nat)
    requires j.Obj? && keys <= j.fields.Keys
    ensures forall k | k in keys :: Height(j.fields[k]) <= h
    decreases j, 0, |keys|
  {
    if keys == {} then 0
    else
      var k :| k in keys;
      Max(KeysHeight(j, keys - {k}), Height(j.fields[k]))
  }

  ghost function MapHeight(m: map<string, Json>): nat {
    Height(Obj(m))
  }

  ghost function ListHeight(items: seq<Json>): nat {
    Height(Arr(items))
  }

  /** The height of a value as a walk sees it: only objects have anything below them. */
  ghost function OptHeight(v: Option<Json>): nat {
    MapHeight(Fields(v))
  }

  lemma MemberHeight(m: map<string, Json>, key: string)
    ensures MapHeight(m) >= 1
    ensures key in m ==> Height(m[key]) < MapHeight(m)
    ensures OptHeight(Lookup(m, key)) <= MapHeight(m)
    ensures key in m ==> OptHeight(Lookup(m, key)) < MapHeight(m)
    ensures ListHeight(Items(Lookup(m, key))) <= MapHeight(m)
    ensures key in m ==> ListHeight(Items(Lookup(m, key))) < MapHeight(m)
  {
    assert ListHeight([]) == 1;
    EmptyHeight();
  }

  lemma EmptyHeight()
    ensures MapHeight(map[]) == 1
  {
    var empty: map<string, Json> := map[];
    assert empty.Keys == {};
  }

  lemma ElementHeight(items: seq<Json>, i: nat)
    ensures OptHeight(ItemAt(items, i)) <= ListHeight(items)
    ensures i < |items| ==> OptHeight(ItemAt(items, i)) < ListHeight(items)
  {
    EmptyHeight();
  }

  // ---- reading order: strings by code point --------------------------------

  predicate StrLe(a: string, b: string) {
    a == [] || (b != [] && (a[0] < b[0] || (a[0] == b[0] && StrLe(a[1..], b[1..]))))
  }

  lemma {:induction false} StrLeTotal(a: string, b: string)
    ensures StrLe(a, b) || StrLe(b, a)
  {
    if a != [] && b != [] {
      StrLeTotal(a[1..], b[1..]);
    }
  }

  lemma {:induction false} StrLeAntisymmetric(a: string, b: string)
    requires StrLe(a, b) && StrLe(b, a)
    ensures a == b
  {
    if a != [] && b != [] {
      StrLeAntisymmetric(a[1..], b[1..]);
      assert a == [a[0]] + a[1..] && b == [b[0]] + b[1..];
    }
  }

  lemma {:induction false} StrLeTransitive(a: string, b: string, c: string)
    requires StrLe(a, b) && StrLe(b, c)
    ensures StrLe(a, c)
  {
    if a != [] && a[0] == b[0] == c[0] {
      StrLeTransitive(a[1..], b[1..], c[1..]);
    }
  }

  /** One string comes before another when it is a prefix of it or smaller where they first differ. */
  lemma {:induction false} StrLeExactly(a: string, b: string)
    ensures StrLe(a, b) <==>
            a <= b || exists i :: 0 <= i < |a| && i < |b| && a[..i] == b[..i] && a[i] < b[i]
  {
    if a != [] && b != [] && a[0] == b[0] {
      StrLeExactly(a[1..], b[1..]);
      assert a == [a[0]] + a[1..] && b == [b[0]] + b[1..];
      if i :| 0 <= i < |a[1..]| && i < |b[1..]| && a[1..][..i] == b[1..][..i] && a[1..][i] < b[1..][i] {
        assert a[..i + 1] == [a[0]] + a[1..][..i] && b[..i + 1] == [b[0]] + b[1..][..i];
        assert a[i + 1] < b[i + 1];
      }
      if i :| 0 <= i < |a| && i < |b| && a[..i] == b[..i] && a[i] < b[i] {
        assert a[1..][..i - 1] == a[..i][1..] == b[..i][1..] == b[1..][..i - 1];
        assert a[1..][i - 1] < b[1..][i - 1];
      }
    } else if a != [] && b != [] {
      assert a[..0] == b[..0];
      if i :| 0 <= i < |a| && i < |b| && a[..i] == b[..i] && a[i] < b[i] {
        assert i > 0 ==> a[0] == a[..i][0] == b[..i][0] == b[0];
      }
    }
  }

  predicate IsLeast(m: string, s: set<string>) {
    m in s && forall k | k in s :: StrLe(m, k)
  }

  ghost function Least(s: set<string>): (m: string)
    requires s != {}
    ensures IsLeast(m, s)
    decreases |s|
  {
    var k :| k in s;
    if s == {k} then
      StrLeTotal(k, k);
      k
    else
      var rest := s - {k};
      assert s == rest + {k};
      var m := Least(rest);
      StrLeTotal(k, m);
      StrLeTotal(k, k);
      assert StrLe(k, m) ==> forall x | x in rest :: StrLe(k, x) by {
        forall x | x in rest && StrLe(k, m) ensures StrLe(k, x) {
          StrLeTransitive(k, m, x);
        }
      }
      if StrLe(k, m) then k else m
  }

  /** The elements of `s` in reading order, as an ordered set yields them. */
  ghost function InOrder(s: set<string>): (r: seq<string>)
    ensures forall k :: k in r <==> k in s
    decreases |s|
  {
    if s == {} then [] else [Least(s)] + InOrder(s - {Least(s)})
  }

  predicate Sorted(r: seq<string>) {
    forall i, j | 0 <= i < j < |r| :: StrLe(r[i], r[j])
  }

  /** Prefixing something that comes before everything else. */
  lemma SortedCons(m: string, r: seq<string>)
    requires Sorted(r) && Distinct(r) && forall k | k in r :: StrLe(m, k) && k != m
    ensures Sorted([m] + r) && Distinct([m] + r)
  {
  }

  lemma {:induction false} InOrderIsSorted(s: set<string>)
    ensures |InOrder(s)| == |s| && Distinct(InOrder(s)) && Sorted(InOrder(s))
    decreases |s|
  {
    if s != {} {
      var m := Least(s);
      InOrderIsSorted(s - {m});
      SortedCons(m, InOrder(s - {m}));
    }
  }

  /** The first key of a set in reading order. */
  method PickLeast(s: set<string>) returns (m: string)
    requires s != {}
    ensures m == Least(s)
  {
    m :| m in s;
    var rest := s - {m};
    StrLeTotal(m, m);
    while rest != {}
      invariant rest <= s && m in s
      invariant forall k | k in s && k !in rest :: StrLe(m, k)
      decreases |rest|
    {
      var k :| k in rest;
      StrLeTotal(m, k);
      if !StrLe(m, k) {
        forall x | x in s && x !in rest ensures StrLe(k, x) {
          StrLeTransitive(k, m, x);
        }
        StrLeTotal(k, k);
        m := k;
      }
      rest := rest - {k};
    }
    StrLeAntisymmetric(m, Least(s));
  }

  method Sort(s: set<string>) returns (r: seq<string>)
    ensures r == InOrder(s)
  {
    r := [];
    var rest := s;
    while rest != {}
      invariant InOrder(s) == r + InOrder(rest)
      decreases |rest|
    {
      var m := PickLeast(rest);
      assert r + InOrder(rest) == (r + [m]) + InOrder(rest - {m});
      r, rest := r + [m], rest - {m};
    }
  }
}
