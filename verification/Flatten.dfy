/** Flattening a resolved list or map into "name -> text" entries
    (pkg/resolver/cel.go): what the mutual recursion over lists and maps can
    leave in the output, exactly, map iteration order being arbitrary. */
module Flatten {
  import opened Values

  // ---- names ------------------------------------------------------------------------

  function Itoa(n: nat): string {
    if n < 10 then [Digit(n)] else Itoa(n / 10) + [Digit(n % 10)]
  }

  function Digit(d: nat): char
    requires d < 10
  {
    '0' + d as char
  }

  function Indexed(parent: string, i: nat): string {
    parent + "#" + Itoa(i)
  }

  /** One step into a list or a map. */
  datatype Hop = Item(i: nat) | Entry(k: string)

  function Hops(v: Value): set<Hop> {
    match v
    case List(items) => set i: nat | i < |items| :: Item(i)
    case Map(entries) => set k | k in entries :: Entry(k)
    case _ => {}
  }

  function Child(v: Value, hop: Hop): (c: Value)
    requires hop in Hops(v)
    ensures c < v
  {
    match hop
    case Item(i) => v.items[i]
    case Entry(k) => v.entries[k]
  }

  /** The name a scalar child is written to. */
  function ChildName(parent: string, hop: Hop): string {
    match hop
    case Item(i) => Indexed(parent, i)
    case Entry(k) => k
  }

  /** The parent name for the items of a list child: a list in a list passes its
      own on, a list in a map is named after its key. */
  function ChildParent(parent: string, hop: Hop): string {
    match hop
    case Item(_) => parent
    case Entry(k) => k
  }

  // ---- what the loops can do ------------------------------------------------------------

  /** Lists are visited in order, maps in any order. */
  ghost predicate Visits(v: Value, hops: seq<Hop>) {
    match v
    case List(items) => hops == seq(|items|, i requires 0 <= i => Item(i))
    case Map(_) => multiset(hops) == multiset(Hops(v))
    case _ => false
  }

  lemma VisitsHops(v: Value, hops: seq<Hop>)
    requires Visits(v, hops)
    ensures forall h :: h in hops <==> h in Hops(v)
  {
    forall h ensures h in hops <==> h in Hops(v) {
      if v.Map? {
        assert h in hops <==> h in multiset(hops);
      } else if h in Hops(v) {
        assert hops[h.i] == h;
      }
    }
  }

  /** Writing v, called name and below parent, can turn m into m'. */
  ghost predicate Puts(v: Value, name: string, parent: string, m: map<string, string>, m': map<string, string>)
    decreases v, 1, 0
  {
    match v
    case Scalar(text) => m' == m[name := text]
    case List(_) => PutsIn(v, parent, m, m')
    case Map(_) => PutsIn(v, "", m, m')
    case _ => m' == m
  }

  ghost predicate PutsIn(v: Value, parent: string, m: map<string, string>, m': map<string, string>)
    decreases v, 0, 1
  {
    exists hops :: Visits(v, hops) && PutsAlong(v, parent, hops, m, m')
  }

  ghost predicate PutsAlong(v: Value, parent: string, hops: seq<Hop>, m: map<string, string>, m': map<string, string>)
    decreases v, 0, 0, |hops|
  {
    if hops == [] then m' == m
    else
      var n := |hops| - 1;
      hops[n] in Hops(v) &&
      exists m1 :: PutsAlong(v, parent, hops[..n], m, m1)
                   && Puts(Child(v, hops[n]), ChildName(parent, hops[n]), ChildParent(parent, hops[n]), m1, m')
  }

  lemma OneMoreHop(v: Value, parent: string, hops: seq<Hop>, hop: Hop,
                   m: map<string, string>, m1: map<string, string>, m': map<string, string>)
    requires PutsAlong(v, parent, hops, m, m1) && hop in Hops(v)
    requires Puts(Child(v, hop), ChildName(parent, hop), ChildParent(parent, hop), m1, m')
    ensures PutsAlong(v, parent, hops + [hop], m, m')
  {
    hide Puts;
    assert (hops + [hop])[..|hops|] == hops;
  }

  // ---- the mutual recursion ------------------------------------------------------------------

  class Output {
    var m: map<string, string>

    constructor ()
      ensures m == map[]
    {
      m := map[];
    }
  }

  method ResolveListInner(v: Value, out: Output, parent: string)
    requires v.List?
    modifies out
    ensures PutsIn(v, parent, old(out.m), out.m)
    decreases v, 1
  {
    hide Puts;
    ghost var hops: seq<Hop> := [];
    for i := 0 to |v.items|
      invariant hops == seq(i, j requires 0 <= j => Item(j))
      invariant PutsAlong(v, parent, hops, old(out.m), out.m)
    {
      ghost var middle := out.m;
      ResolveChild(v.items[i], out, Indexed(parent, i), parent);
      OneMoreHop(v, parent, hops, Item(i), old(out.m), middle, out.m);
      hops := hops + [Item(i)];
    }
    assert Visits(v, hops);
  }

  method ResolveMapInner(v: Value, out: Output)
    requires v.Map?
    modifies out
    ensures PutsIn(v, "", old(out.m), out.m)
    decreases v, 1
  {
    hide Puts;
    var rest := v.entries.Keys;
    ghost var hops: seq<Hop> := [];
    ghost var done: set<Hop> := {};
    while rest != {}
      invariant rest <= v.entries.Keys
      invariant done == set k | k in v.entries.Keys - rest :: Entry(k)
      invariant multiset(hops) == multiset(done)
      invariant PutsAlong(v, "", hops, old(out.m), out.m)
      decreases rest
    {
      var k :| k in rest;
      ghost var middle := out.m;
      ResolveChild(v.entries[k], out, k, k);
      OneMoreHop(v, "", hops, Entry(k), old(out.m), middle, out.m);
      hops, done, rest := hops + [Entry(k)], done + {Entry(k)}, rest - {k};
    }
    assert done == Hops(v);
    assert Visits(v, hops);
  }

  /** The type switch both loops share. */
  method ResolveChild(v: Value, out: Output, name: string, parent: string)
    modifies out
    ensures Puts(v, name, parent, old(out.m), out.m)
    decreases v, 2
  {
    match v
    case Scalar(text) => out.m := out.m[name := text];
    case List(_) => ResolveListInner(v, out, parent);
    case Map(_) => ResolveMapInner(v, out);
    case _ =>
  }

  // ---- the whole result of a query ---------------------------------------------------------------

  function FirstIndex(s: string, c: char): (i: int)
    ensures -1 <= i < |s|
  {
    if s == [] then -1
    else if s[0] == c then 0
    else var i := FirstIndex(s[1..], c); if i < 0 then -1 else i + 1
  }

  function LastIndex(s: string, c: char): (i: int)
    ensures -1 <= i < |s|
  {
    if s == [] then -1
    else if s[|s| - 1] == c then |s| - 1
    else LastIndex(s[..|s| - 1], c)
  }

  /** The field a list result is named after: the query up to its first call,
      without the method name, from the last dot on. */
  function FieldParent(query: string): string {
    var open := FirstIndex(query, '(');
    var called := if open > 0 then query[..open] else query;
    var dot := LastIndex(called, '.');
    var base := if open > 0 && dot >= 0 then called[..dot] else called;
    base[LastIndex(base, '.') + 1..]
  }

  /** r is a possible result for a query that evaluated to v. */
  ghost predicate Resolves(query: string, v: Value, r: map<string, string>) {
    match v
    case Scalar(text) => r == map[query := text]
    case Null => r == map[query := "<nil>"]
    case Other => r == map[query := query]
    case Opaque => r == map[]
    case _ => Puts(v, "", FieldParent(query), map[], r)
  }

  method ProcessResult(query: string, v: Value) returns (r: map<string, string>)
    ensures Resolves(query, v, r)
  {
    match v
    case Scalar(text) => r := map[query := text];
    case Null => r := map[query := "<nil>"];
    case Other => r := map[query := query];
    case Opaque => r := map[];
    case List(_) =>
      var out := new Output();
      ResolveListInner(v, out, FieldParent(query));
      r := out.m;
    case Map(_) =>
      var out := new Output();
      ResolveMapInner(v, out);
      r := out.m;
  }

  // ---- what a name can end up holding -------------------------------------------------------------

  /** The texts name k can be left with: in a list the last item that writes k
      decides, in a map any entry that does may be the last one. */
  ghost function Finals(v: Value, name: string, parent: string, k: string): set<string>
    decreases v, 1
  {
    match v
    case Scalar(text) => if k == name then {text} else {}
    case List(items) => ListFinals(v, |items|, parent, k)
    case Map(_) =>
      set hop, t | hop in Hops(v) && t in Finals(Child(v, hop), ChildName("", hop), ChildParent("", hop), k) :: t
    case _ => {}
  }

  ghost function ListFinals(v: Value, n: nat, parent: string, k: string): set<string>
    requires v.List? && n <= |v.items|
    decreases v, 0, n
  {
    if n == 0 then {}
    else
      var last := Finals(v.items[n - 1], Indexed(parent, n - 1), parent, k);
      if last != {} then last else ListFinals(v, n - 1, parent, k)
  }

  /** m' keeps what m holds, except for names with new texts, which hold one of them. */
  ghost predicate Overwritten(m: map<string, string>, m': map<string, string>, k: string, texts: set<string>) {
    if texts == {} then (k in m' <==> k in m) && (k in m ==> m'[k] == m[k])
    else k in m' && m'[k] in texts
  }

  /** Nothing else can happen. */
  lemma {:induction false} PutsSound(v: Value, name: string, parent: string, m: map<string, string>,
                                     m': map<string, string>, k: string)
    requires Puts(v, name, parent, m, m')
    ensures Overwritten(m, m', k, Finals(v, name, parent, k))
    decreases v, 1, 0
  {
    match v
    case List(items) =>
      var hops :| Visits(v, hops) && PutsAlong(v, parent, hops, m, m');
      assert hops[..|items|] == hops;
      ListSound(v, |items|, parent, hops, m, m', k);
    case Map(_) =>
      var hops :| Visits(v, hops) && PutsAlong(v, "", hops, m, m');
      VisitsHops(v, hops);
      MapSound(v, hops, m, m', k);
      MapFinals(v, name, parent, hops, k);
    case _ =>
  }

  lemma {:induction false} ListSound(v: Value, n: nat, parent: string, hops: seq<Hop>,
                                     m: map<string, string>, m': map<string, string>, k: string)
    requires v.List? && Visits(v, hops) && n <= |v.items| && PutsAlong(v, parent, hops[..n], m, m')
    ensures Overwritten(m, m', k, ListFinals(v, n, parent, k))
    decreases v, 0, n
  {
    if n > 0 {
      assert hops[..n][..n - 1] == hops[..n - 1] && hops[n - 1] == Item(n - 1);
      var m1 :| PutsAlong(v, parent, hops[..n - 1], m, m1)
                && Puts(v.items[n - 1], Indexed(parent, n - 1), parent, m1, m');
      ListSound(v, n - 1, parent, hops, m, m1, k);
      PutsSound(v.items[n - 1], Indexed(parent, n - 1), parent, m1, m', k);
    }
  }

  /** The texts the entries along hops can leave under k. */
  ghost function FinalsAlong(v: Value, hops: seq<Hop>, k: string): set<string> {
    set hop, t | hop in hops && hop in Hops(v)
        && t in Finals(Child(v, hop), ChildName("", hop), ChildParent("", hop), k) :: t
  }

  lemma MapFinals(v: Value, name: string, parent: string, hops: seq<Hop>, k: string)
    requires v.Map? && forall h :: h in hops <==> h in Hops(v)
    ensures FinalsAlong(v, hops, k) == Finals(v, name, parent, k)
  {
  }

  lemma {:induction false} MapSound(v: Value, hops: seq<Hop>, m: map<string, string>, m': map<string, string>,
                                    k: string)
    requires v.Map? && PutsAlong(v, "", hops, m, m')
    ensures Overwritten(m, m', k, FinalsAlong(v, hops, k))
    decreases v, 0, |hops|
  {
    if hops != [] {
      var n := |hops| - 1;
      var m1 :| PutsAlong(v, "", hops[..n], m, m1)
                && Puts(Child(v, hops[n]), ChildName("", hops[n]), ChildParent("", hops[n]), m1, m');
      MapSound(v, hops[..n], m, m1, k);
      PutsSound(Child(v, hops[n]), ChildName("", hops[n]), ChildParent("", hops[n]), m1, m', k);
      OneMoreFinal(v, hops[..n], hops[n], k);
      assert hops == hops[..n] + [hops[n]];
    }
  }

  lemma OneMoreFinal(v: Value, hops: seq<Hop>, hop: Hop, k: string)
    requires hop in Hops(v)
    ensures FinalsAlong(v, hops + [hop], k)
         == FinalsAlong(v, hops, k) + Finals(Child(v, hop), ChildName("", hop), ChildParent("", hop), k)
  {
    hide Finals;
  }

  // ---- and all of it can happen -------------------------------------------------------------------

  lemma {:induction false} Enumerated(hops: set<Hop>) returns (order: seq<Hop>)
    ensures multiset(order) == multiset(hops)
    decreases hops
  {
    order := [];
    if hops != {} {
      var hop :| hop in hops;
      var rest := Enumerated(hops - {hop});
      order := rest + [hop];
      assert hops == hops - {hop} + {hop};
    }
  }

  lemma {:induction false} SomeOutput(v: Value, name: string, parent: string, m: map<string, string>)
      returns (m': map<string, string>)
    ensures Puts(v, name, parent, m, m')
    decreases v, 1, 0
  {
    match v
    case Scalar(text) => m' := m[name := text];
    case List(items) =>
      var hops := seq(|items|, i requires 0 <= i => Item(i));
      VisitsHops(v, hops);
      m' := SomeAlong(v, parent, hops, m);
    case Map(_) =>
      var hops := Enumerated(Hops(v));
      VisitsHops(v, hops);
      m' := SomeAlong(v, "", hops, m);
    case _ => m' := m;
  }

  lemma {:induction false} SomeAlong(v: Value, parent: string, hops: seq<Hop>, m: map<string, string>)
      returns (m': map<string, string>)
    requires forall h | h in hops :: h in Hops(v)
    ensures PutsAlong(v, parent, hops, m, m')
    decreases v, 0, |hops|
  {
    m' := m;
    if hops != [] {
      hide Puts;
      var n := |hops| - 1;
      var m1 := SomeAlong(v, parent, hops[..n], m);
      m' := SomeOutput(Child(v, hops[n]), ChildName(parent, hops[n]), ChildParent(parent, hops[n]), m1);
    }
  }

  /** Some order of visits leaves exactly text t under name k. */
  lemma {:induction false} PutsComplete(v: Value, name: string, parent: string, m: map<string, string>, k: string,
                                        t: string)
      returns (m': map<string, string>)
    requires t in Finals(v, name, parent, k)
    ensures Puts(v, name, parent, m, m') && k in m' && m'[k] == t
    decreases v, 1, 0
  {
    match v
    case Scalar(text) => m' := m[name := text];
    case List(items) =>
      var hops := seq(|items|, i requires 0 <= i => Item(i));
      VisitsHops(v, hops);
      assert hops[..|items|] == hops;
      m' := ListComplete(v, |items|, parent, hops, m, k, t);
    case Map(_) =>
      var hop :| hop in Hops(v) && t in Finals(Child(v, hop), ChildName("", hop), ChildParent("", hop), k);
      m' := MapComplete(v, hop, m, k, t);
  }

  lemma {:induction false} ListComplete(v: Value, n: nat, parent: string, hops: seq<Hop>, m: map<string, string>,
                                        k: string, t: string)
      returns (m': map<string, string>)
    requires v.List? && Visits(v, hops) && n <= |v.items| && t in ListFinals(v, n, parent, k)
    ensures PutsAlong(v, parent, hops[..n], m, m') && k in m' && m'[k] == t
    decreases v, 0, n
  {
    hide Puts;
    var item, name, before := v.items[n - 1], Indexed(parent, n - 1), hops[..n - 1];
    VisitsHops(v, hops);
    assert hops[..n] == before + [Item(n - 1)];
    if Finals(item, name, parent, k) != {} {
      var m1 := SomeAlong(v, parent, before, m);
      m' := PutsComplete(item, name, parent, m1, k, t);
      OneMoreHop(v, parent, before, Item(n - 1), m, m1, m');
    } else {
      var m1 := ListComplete(v, n - 1, parent, hops, m, k, t);
      m' := SomeOutput(item, name, parent, m1);
      PutsSound(item, name, parent, m1, m', k);
      OneMoreHop(v, parent, before, Item(n - 1), m, m1, m');
    }
  }

  /** Visit the deciding entry last. */
  lemma {:induction false} MapComplete(v: Value, hop: Hop, m: map<string, string>, k: string, t: string)
      returns (m': map<string, string>)
    requires v.Map? && hop in Hops(v) && t in Finals(Child(v, hop), ChildName("", hop), ChildParent("", hop), k)
    ensures PutsIn(v, "", m, m') && k in m' && m'[k] == t
    decreases v, 0
  {
    hide Puts;
    var hops := Enumerated(Hops(v) - {hop});
    assert multiset(hops + [hop]) == multiset(Hops(v)) by { assert Hops(v) == Hops(v) - {hop} + {hop}; }
    forall h | h in hops ensures h in Hops(v) { assert h in multiset(hops); }
    var m1 := SomeAlong(v, "", hops, m);
    m' := PutsComplete(Child(v, hop), ChildName("", hop), ChildParent("", hop), m1, k, t);
    OneMoreHop(v, "", hops, hop, m, m1, m');
    assert Visits(v, hops + [hop]);
  }

  // ---- when a resolution is unique -----------------------------------------------------------------

  /** The texts entry k of the result can have. */
  ghost function Texts(query: string, v: Value, k: string): set<string> {
    match v
    case Scalar(text) => if k == query then {text} else {}
    case Null => if k == query then {"<nil>"} else {}
    case Other => if k == query then {query} else {}
    case Opaque => {}
    case _ => Finals(v, "", FieldParent(query), k)
  }

  /** Every result has an entry for exactly the names that have texts, holding one
      of them; and each of them is the entry of some result. */
  lemma ResolvesTexts(query: string, v: Value, k: string)
    ensures forall r | Resolves(query, v, r) :: if k in r then r[k] in Texts(query, v, k) else Texts(query, v, k) == {}
    ensures forall t | t in Texts(query, v, k) :: exists r :: Resolves(query, v, r) && k in r && r[k] == t
  {
    hide Puts, Finals;
    if v.List? || v.Map? {
      forall r | Resolves(query, v, r) ensures if k in r then r[k] in Texts(query, v, k) else Texts(query, v, k) == {} {
        PutsSound(v, "", FieldParent(query), map[], r, k);
      }
      forall t | t in Texts(query, v, k) ensures exists r :: Resolves(query, v, r) && k in r && r[k] == t {
        var r := PutsComplete(v, "", FieldParent(query), map[], k, t);
      }
    } else {
      var r := SomeResult(query, v);
    }
  }

  lemma SomeResult(query: string, v: Value) returns (r: map<string, string>)
    ensures Resolves(query, v, r)
  {
    match v
    case Scalar(text) => r := map[query := text];
    case Null => r := map[query := "<nil>"];
    case Other => r := map[query := query];
    case Opaque => r := map[];
    case _ => r := SomeOutput(v, "", FieldParent(query), map[]);
  }

  /** No name can end up with two different texts. */
  ghost predicate Settled(query: string, v: Value) {
    forall k, s, t | s in Texts(query, v, k) && t in Texts(query, v, k) :: s == t
  }

  /** Map iteration order does not show in the result exactly if no name can end
      up with two texts; the names in the result never depend on it. */
  lemma UniqueIffSettled(query: string, v: Value)
    ensures (forall r, r' | Resolves(query, v, r) && Resolves(query, v, r') :: r == r') <==> Settled(query, v)
    ensures forall r, r' | Resolves(query, v, r) && Resolves(query, v, r') :: r.Keys == r'.Keys
  {
    hide Resolves, Texts;
    forall r, r' | Resolves(query, v, r) && Resolves(query, v, r') ensures r.Keys == r'.Keys {
      forall k ensures k in r <==> k in r' { ResolvesTexts(query, v, k); }
    }
    if Settled(query, v) {
      forall r, r' | Resolves(query, v, r) && Resolves(query, v, r') ensures r == r' {
        forall k | k in r ensures r[k] == r'[k] { ResolvesTexts(query, v, k); }
      }
    }
    if forall r, r' | Resolves(query, v, r) && Resolves(query, v, r') :: r == r' {
      forall k, s, t | s in Texts(query, v, k) && t in Texts(query, v, k) ensures s == t {
        ResolvesTexts(query, v, k);
        var r :| Resolves(query, v, r) && k in r && r[k] == s;
        var r' :| Resolves(query, v, r') && k in r' && r'[k] == t;
      }
    }
  }
}
