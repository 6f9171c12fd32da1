/** The leaves of a value, path by path: what flattening writes, and that
    collecting undoes it on lists of scalars. */
module Leaves {
  import opened Basics
  import opened Values
  import opened Flatten
  import opened Collect

  /** The scalar a path of hops leads to, under the name it is written to:
      a map entry under its key, a list item under "parent#index", where the
      parent of a nested list is the parent of the outer one. */
  function LeafAt(v: Value, parent: string, path: seq<Hop>): Option<(string, string)>
    decreases |path|, 0
  {
    if path == [] then None
    else match (v, path[0])
         case (List(items), Item(i)) =>
           if i < |items| then ChildLeaf(items[i], Indexed(parent, i), parent, path[1..]) else None
         case (Map(entries), Entry(k)) =>
           if k in entries then ChildLeaf(entries[k], k, k, path[1..]) else None
         case _ => None
  }

  function ChildLeaf(v: Value, name: string, parent: string, path: seq<Hop>): Option<(string, string)>
    decreases |path|, 1
  {
    match v
    case Scalar(text) => if path == [] then Some((name, text)) else None
    case List(_) => LeafAt(v, parent, path)
    case Map(_) => LeafAt(v, parent, path)
    case _ => None
  }

  ghost predicate HasLeaf(v: Value, parent: string, name: string, text: string) {
    exists path :: LeafAt(v, parent, path) == Some((name, text))
  }

  /** A leaf behind one of the given first hops. */
  ghost predicate HasLeafIn(v: Value, parent: string, hops: set<Hop>, name: string, text: string) {
    exists path :: path != [] && path[0] in hops && LeafAt(v, parent, path) == Some((name, text))
  }

  ghost predicate Named(v: Value, parent: string, hops: set<Hop>, name: string) {
    exists text :: HasLeafIn(v, parent, hops, name, text)
  }

  /** m' is m with the leaves behind hops written into it: a name several leaves
      share holds the text of one of them. */
  ghost predicate WrittenIn(m: map<string, string>, m': map<string, string>, v: Value, parent: string, hops: set<Hop>) {
    && (forall k | k in m' ::
          HasLeafIn(v, parent, hops, k, m'[k]) || (k in m && m'[k] == m[k] && !Named(v, parent, hops, k)))
    && (forall k | k in m :: k in m')
    && (forall k, t | HasLeafIn(v, parent, hops, k, t) :: k in m')
  }

  ghost predicate Written(m: map<string, string>, m': map<string, string>, v: Value, parent: string) {
    WrittenIn(m, m', v, parent, Hops(v))
  }

  // ---- writing one more child -----------------------------------------------------------

  lemma NothingWritten(m: map<string, string>, v: Value, parent: string)
    ensures WrittenIn(m, m, v, parent, {})
  {
  }

  /** Writes compose; later ones win. */
  lemma WrittenTwice(m0: map<string, string>, m1: map<string, string>, m2: map<string, string>,
                     v: Value, parent: string, a: set<Hop>, b: set<Hop>)
    requires WrittenIn(m0, m1, v, parent, a) && WrittenIn(m1, m2, v, parent, b)
    ensures WrittenIn(m0, m2, v, parent, a + b)
  {
    hide LeafAt;
    forall k, t ensures HasLeafIn(v, parent, a + b, k, t)
        <==> HasLeafIn(v, parent, a, k, t) || HasLeafIn(v, parent, b, k, t) {
      LeafInUnion(v, parent, a, b, k, t);
    }
    hide HasLeafIn;
  }

  lemma LeafInUnion(v: Value, parent: string, a: set<Hop>, b: set<Hop>, k: string, t: string)
    ensures HasLeafIn(v, parent, a + b, k, t) <==> HasLeafIn(v, parent, a, k, t) || HasLeafIn(v, parent, b, k, t)
  {
    hide LeafAt;
    if path :| path != [] && path[0] in a + b && LeafAt(v, parent, path) == Some((k, t)) {
      assert path[0] in a || path[0] in b;
    }
    if path :| path != [] && path[0] in a && LeafAt(v, parent, path) == Some((k, t)) {
      assert path[0] in a + b;
    }
    if path :| path != [] && path[0] in b && LeafAt(v, parent, path) == Some((k, t)) {
      assert path[0] in a + b;
    }
  }

  ghost predicate ChildHas(v: Value, name: string, parent: string, k: string, t: string) {
    exists path :: ChildLeaf(v, name, parent, path) == Some((k, t))
  }

  /** The leaves behind one hop are the leaves of that child. */
  lemma LeafBehind(v: Value, parent: string, hop: Hop, k: string, t: string)
    requires hop in Hops(v)
    ensures HasLeafIn(v, parent, {hop}, k, t) <==>
            ChildHas(Child(v, hop), ChildName(parent, hop), ChildParent(parent, hop), k, t)
  {
    var c, n, p := Child(v, hop), ChildName(parent, hop), ChildParent(parent, hop);
    if path :| path != [] && path[0] in {hop} && LeafAt(v, parent, path) == Some((k, t)) {
      assert ChildLeaf(c, n, p, path[1..]) == Some((k, t));
    }
    if path :| ChildLeaf(c, n, p, path) == Some((k, t)) {
      var longer := [hop] + path;
      assert longer[1..] == path;
      assert longer != [] && longer[0] in {hop} && LeafAt(v, parent, longer) == Some((k, t));
    }
  }

  lemma ContainerLeaves(v: Value, name: string, parent: string, k: string, t: string)
    requires v.List? || v.Map?
    ensures ChildHas(v, name, parent, k, t) <==> HasLeafIn(v, parent, Hops(v), k, t)
  {
    if path :| ChildLeaf(v, name, parent, path) == Some((k, t)) {
      assert LeafAt(v, parent, path) == Some((k, t));
      assert path != [] && path[0] in Hops(v);
    }
    if path :| path != [] && path[0] in Hops(v) && LeafAt(v, parent, path) == Some((k, t)) {
      assert ChildLeaf(v, name, parent, path) == Some((k, t));
    }
  }

  lemma MapParentIrrelevant(v: Value, p: string, q: string, hops: set<Hop>, k: string, t: string)
    requires v.Map?
    ensures HasLeafIn(v, p, hops, k, t) <==> HasLeafIn(v, q, hops, k, t)
  {
    forall path ensures LeafAt(v, p, path) == LeafAt(v, q, path) {}
    if path :| path != [] && path[0] in hops && LeafAt(v, p, path) == Some((k, t)) {
      assert LeafAt(v, q, path) == Some((k, t));
    }
    if path :| path != [] && path[0] in hops && LeafAt(v, q, path) == Some((k, t)) {
      assert LeafAt(v, p, path) == Some((k, t));
    }
  }

  /** Two descriptions of the same leaves describe the same writes. */
  lemma SameLeaves(m: map<string, string>, m': map<string, string>, v: Value, p: string, a: set<Hop>,
                   w: Value, q: string, b: set<Hop>)
    requires WrittenIn(m, m', v, p, a)
    requires forall k, t :: HasLeafIn(v, p, a, k, t) <==> HasLeafIn(w, q, b, k, t)
    ensures WrittenIn(m, m', w, q, b)
  {
    hide HasLeafIn;
  }

  lemma ChildWrites(m: map<string, string>, m': map<string, string>, v: Value, parent: string, hop: Hop)
    requires hop in Hops(v)
    requires ChildWritten(m, m', Child(v, hop), ChildName(parent, hop), ChildParent(parent, hop))
    ensures WrittenIn(m, m', v, parent, {hop})
  {
    hide HasLeafIn, LeafAt;
    var c, n, p := Child(v, hop), ChildName(parent, hop), ChildParent(parent, hop);
    forall k, t ensures HasLeafIn(v, parent, {hop}, k, t) <==> ChildHas(c, n, p, k, t) {
      LeafBehind(v, parent, hop, k, t);
    }
    if c.List? || c.Map? {
      hide ChildLeaf, ChildHas;
      var q := if c.Map? then "" else p;
      forall k, t ensures HasLeafIn(c, q, Hops(c), k, t) <==> HasLeafIn(v, parent, {hop}, k, t) {
        ContainerLeaves(c, n, p, k, t);
        if c.Map? {
          MapParentIrrelevant(c, p, q, Hops(c), k, t);
        }
      }
      SameLeaves(m, m', c, q, Hops(c), v, parent, {hop});
    } else if c.Scalar? {
      assert ChildLeaf(c, n, p, []) == Some((n, c.text));
      assert HasLeafIn(v, parent, {hop}, n, c.text);
    }
  }

  // ---- every run writes the leaves -------------------------------------------------------

  ghost predicate ChildWritten(m: map<string, string>, m': map<string, string>, v: Value, name: string,
                               parent: string) {
    match v
    case Scalar(text) => m' == m[name := text]
    case List(_) => Written(m, m', v, parent)
    case Map(_) => Written(m, m', v, "")
    case _ => m' == m
  }

  lemma {:induction false} PutsWritten(v: Value, name: string, parent: string, m: map<string, string>,
                                       m': map<string, string>)
    requires Puts(v, name, parent, m, m')
    ensures ChildWritten(m, m', v, name, parent)
    decreases v, 1, 0
  {
    hide WrittenIn;
    if v.List? || v.Map? {
      var p := if v.Map? then "" else parent;
      var hops :| Visits(v, hops) && PutsAlong(v, p, hops, m, m');
      VisitsHops(v, hops);
      AlongWritten(v, p, hops, m, m');
      assert HopSet(hops) == Hops(v);
    }
  }

  lemma {:induction false} AlongWritten(v: Value, parent: string, hops: seq<Hop>, m: map<string, string>,
                                        m': map<string, string>)
    requires PutsAlong(v, parent, hops, m, m')
    ensures WrittenIn(m, m', v, parent, HopSet(hops))
    decreases v, 0, |hops|
  {
    hide Puts, WrittenIn, ChildWritten;
    if hops == [] {
      assert HopSet(hops) == {};
      NothingWritten(m, v, parent);
    } else {
      var n, hop := |hops| - 1, hops[|hops| - 1];
      var m1 :| PutsAlong(v, parent, hops[..n], m, m1)
                && Puts(Child(v, hop), ChildName(parent, hop), ChildParent(parent, hop), m1, m');
      AlongWritten(v, parent, hops[..n], m, m1);
      PutsWritten(Child(v, hop), ChildName(parent, hop), ChildParent(parent, hop), m1, m');
      hide PutsAlong, HopSet;
      LastHopWritten(v, parent, hops, m, m1, m');
    }
  }

  /** What the last hop writes, after the others. */
  lemma LastHopWritten(v: Value, parent: string, hops: seq<Hop>, m: map<string, string>, m1: map<string, string>,
                       m': map<string, string>)
    requires hops != [] && hops[|hops| - 1] in Hops(v)
    requires WrittenIn(m, m1, v, parent, HopSet(hops[..|hops| - 1]))
    requires var hop := hops[|hops| - 1];
             ChildWritten(m1, m', Child(v, hop), ChildName(parent, hop), ChildParent(parent, hop))
    ensures WrittenIn(m, m', v, parent, HopSet(hops))
  {
    hide WrittenIn, ChildWritten;
    var n, hop := |hops| - 1, hops[|hops| - 1];
    ChildWrites(m1, m', v, parent, hop);
    WrittenTwice(m, m1, m', v, parent, HopSet(hops[..n]), {hop});
    assert hops == hops[..n] + [hop];
    assert HopSet(hops) == HopSet(hops[..n]) + {hop};
  }

  function HopSet(hops: seq<Hop>): set<Hop> {
    set h | h in hops
  }

  lemma InWritten(v: Value, parent: string, m: map<string, string>, m': map<string, string>)
    requires PutsIn(v, parent, m, m')
    ensures Written(m, m', v, parent)
  {
    hide Puts, WrittenIn;
    var hops :| Visits(v, hops) && PutsAlong(v, parent, hops, m, m');
    VisitsHops(v, hops);
    AlongWritten(v, parent, hops, m, m');
    assert HopSet(hops) == Hops(v);
  }

  // ---- distinct names --------------------------------------------------------------------

  ghost predicate DistinctLeaves(v: Value, parent: string) {
    forall p, q | LeafAt(v, parent, p).Some? && LeafAt(v, parent, q).Some?
                  && LeafAt(v, parent, p).value.0 == LeafAt(v, parent, q).value.0 :: p == q
  }

  lemma LeafBehindSomeHop(v: Value, parent: string, path: seq<Hop>)
    requires LeafAt(v, parent, path).Some?
    ensures path != [] && path[0] in Hops(v)
  {
  }

  /** With pairwise distinct leaf names the output holds every leaf under its
      name and nothing else, so it is one entry per leaf, whatever the order in
      which maps were visited. */
  lemma FlattenBijection(v: Value, parent: string, m: map<string, string>)
    requires PutsIn(v, parent, map[], m) && DistinctLeaves(v, parent)
    ensures forall path | LeafAt(v, parent, path).Some? ::
              LeafAt(v, parent, path).value.0 in m
                  && m[LeafAt(v, parent, path).value.0] == LeafAt(v, parent, path).value.1
    ensures forall k | k in m :: HasLeaf(v, parent, k, m[k])
  {
    InWritten(v, parent, map[], m);
    hide LeafAt, PutsIn;
    forall path | LeafAt(v, parent, path).Some?
      ensures LeafAt(v, parent, path).value.0 in m
                && m[LeafAt(v, parent, path).value.0] == LeafAt(v, parent, path).value.1
    {
      var (k, t) := LeafAt(v, parent, path).value;
      LeafBehindSomeHop(v, parent, path);
      assert HasLeafIn(v, parent, Hops(v), k, t);
      assert HasLeafIn(v, parent, Hops(v), k, m[k]);
    }
    forall k | k in m ensures HasLeaf(v, parent, k, m[k]) {
      assert HasLeafIn(v, parent, Hops(v), k, m[k]);
    }
  }

  /** Distinct leaf names settle the result of the query. */
  lemma DistinctLeavesSettle(query: string, v: Value)
    requires DistinctLeaves(v, if v.List? then FieldParent(query) else "")
    ensures Settled(query, v)
  {
    hide LeafAt, Texts, Resolves, PutsIn;
    if v.List? || v.Map? {
      var parent := if v.List? then FieldParent(query) else "";
      forall r, r' | Resolves(query, v, r) && Resolves(query, v, r') ensures r == r' {
        ResultIn(query, v, r);
        ResultIn(query, v, r');
        FlattenDeterministic(v, parent, r, r');
      }
    } else {
      OneText(query, v);
    }
    UniqueIffSettled(query, v);
  }

  lemma ResultIn(query: string, v: Value, r: map<string, string>)
    requires (v.List? || v.Map?) && Resolves(query, v, r)
    ensures PutsIn(v, if v.List? then FieldParent(query) else "", map[], r)
  {
    hide PutsIn;
  }

  lemma OneText(query: string, v: Value)
    requires !v.List? && !v.Map?
    ensures forall r, r' | Resolves(query, v, r) && Resolves(query, v, r') :: r == r'
  {
  }

  /** Any two iteration orders give the same map. */
  lemma FlattenDeterministic(v: Value, parent: string, a: map<string, string>, b: map<string, string>)
    requires PutsIn(v, parent, map[], a) && PutsIn(v, parent, map[], b) && DistinctLeaves(v, parent)
    ensures a == b
  {
    hide LeafAt, PutsIn, DistinctLeaves;
    FlattenBijection(v, parent, a);
    FlattenBijection(v, parent, b);
    forall k | k in a ensures k in b && b[k] == a[k] {
      var path :| LeafAt(v, parent, path) == Some((k, a[k]));
    }
    forall k | k in b ensures k in a {
      var path :| LeafAt(v, parent, path) == Some((k, b[k]));
    }
  }

  // ---- lists of scalars ------------------------------------------------------------------

  lemma {:induction false} ItoaDecimal(n: nat)
    ensures Itoa(n) != "" && AllDigits(Itoa(n)) && Decimal(Itoa(n)) == n
    ensures Itoa(n)[0] == '0' ==> n == 0
  {
    if n < 10 {
      assert Itoa(n)[..0] == "";
    } else {
      ItoaDecimal(n / 10);
      assert Itoa(n)[..|Itoa(n)| - 1] == Itoa(n / 10);
    }
  }

  /** Any prefix will do, even one with a '#' in it. */
  lemma IndexedIndex(parent: string, i: nat)
    ensures IndexOf(Indexed(parent, i)) == Some(i)
  {
    ItoaDecimal(i);
    var k := Indexed(parent, i);
    assert k[|parent|] == '#';
    assert forall j | |parent| < j < |k| :: k[j] == Itoa(i)[j - |parent| - 1];
    assert LastHash(k) == |parent|;
    assert k[|parent| + 1..] == Itoa(i);
  }

  predicate FlatList(items: seq<Value>) {
    forall i | 0 <= i < |items| :: !items[i].List? && !items[i].Map?
  }

  /** The number of scalars before the first null or unsupported element. */
  function ScalarPrefix(items: seq<Value>): (n: nat)
    ensures n <= |items|
    ensures forall i | 0 <= i < n :: items[i].Scalar?
    ensures n < |items| ==> !items[n].Scalar?
  {
    if items != [] && items[0].Scalar? then 1 + ScalarPrefix(items[1..]) else 0
  }

  lemma FlatLeaf(items: seq<Value>, parent: string, k: string, t: string)
    requires FlatList(items)
    ensures HasLeafIn(List(items), parent, Hops(List(items)), k, t) <==>
            exists i: nat :: i < |items| && items[i] == Scalar(t) && k == Indexed(parent, i)
  {
    var v := List(items);
    if path: seq<Hop> :| path != [] && path[0] in Hops(v) && LeafAt(v, parent, path) == Some((k, t)) {
      var i := path[0].i;
      assert ChildLeaf(items[i], Indexed(parent, i), parent, path[1..]) == Some((k, t));
      assert items[i] == Scalar(t) && k == Indexed(parent, i);
    }
    if i: nat :| i < |items| && items[i] == Scalar(t) && k == Indexed(parent, i) {
      var path := [Item(i)];
      assert path[1..] == [];
      assert LeafAt(List(items), parent, path) == Some((k, t));
    }
  }

  /** Collecting what a list of scalars was flattened to gives back the list in
      order; with nulls in it, the part before the first one. */
  lemma ListRoundTrip(items: seq<Value>, parent: string, m: map<string, string>, run: seq<string>)
    requires FlatList(items) && PutsIn(List(items), parent, map[], m) && IsRun(m, run)
    ensures |run| == ScalarPrefix(items)
    ensures forall i | 0 <= i < |run| :: items[i] == Scalar(run[i])
  {
    hide PutsIn, IsRun, Written, FlatList, ScalarPrefix;
    InWritten(List(items), parent, map[], m);
    WrittenRoundTrip(items, parent, m, run);
  }

  lemma WrittenRoundTrip(items: seq<Value>, parent: string, m: map<string, string>, run: seq<string>)
    requires FlatList(items) && Written(map[], m, List(items), parent) && IsRun(m, run)
    ensures |run| == ScalarPrefix(items)
    ensures forall i | 0 <= i < |run| :: items[i] == Scalar(run[i])
  {
    hide IndexOf, Indexed, LeafAt, HasLeafIn, ScalarPrefix;
    forall k, t ensures HasLeafIn(List(items), parent, Hops(List(items)), k, t) <==>
        exists i: nat :: i < |items| && items[i] == Scalar(t) && k == Indexed(parent, i)
    {
      FlatLeaf(items, parent, k, t);
    }
    forall i: nat ensures IndexOf(Indexed(parent, i)) == Some(i) { IndexedIndex(parent, i); }
    forall k | k in m ensures exists i: nat :: i < |items| && items[i] == Scalar(m[k]) && k == Indexed(parent, i) {
      assert HasLeafIn(List(items), parent, Hops(List(items)), k, m[k]);
    }
    forall i: nat | i < |items| && items[i].Scalar? ensures HasIndex(m, i) {
      assert HasLeafIn(List(items), parent, Hops(List(items)), Indexed(parent, i), items[i].text);
      assert Indexed(parent, i) in m;
    }
    forall i: nat | i < |run| ensures i < |items| && items[i] == Scalar(run[i]) {
      assert IsEntry(m, i, run[i]);
    }
    assert |run| < |items| ==> !items[|run|].Scalar?;
  }
}
