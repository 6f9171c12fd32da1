/** Sorting a key slice in place and permuting parallel slices along with it
    (internal/family.go, sortLabels). */
module LabelSorting {
  import opened Basics
  import opened Slices

  // ---- an index sort ----------------------------------------------------------------

  function Insert(keys: seq<string>, order: seq<nat>, i: nat): (r: seq<nat>)
    requires Below(order, |keys|) && i < |keys|
    ensures Below(r, |keys|)
  {
    if order == [] || Le(keys[i], keys[order[0]]) then [i] + order
    else [order[0]] + Insert(keys, order[1..], i)
  }

  lemma {:induction false} InsertMultiset(keys: seq<string>, order: seq<nat>, i: nat)
    requires Below(order, |keys|) && i < |keys|
    ensures multiset(Insert(keys, order, i)) == multiset(order) + multiset{i}
  {
    if order != [] && !Le(keys[i], keys[order[0]]) {
      InsertMultiset(keys, order[1..], i);
      SplitHead(order);
      assert Insert(keys, order, i)[1..] == Insert(keys, order[1..], i);
      SplitHead(Insert(keys, order, i));
    } else {
      assert Insert(keys, order, i)[1..] == order;
      SplitHead(Insert(keys, order, i));
    }
  }

  /** Sorted, stated on neighbours. */
  lemma {:induction false} SortedFromHead(x: string, s: seq<string>)
    requires Sorted(s) && (s != [] ==> Le(x, s[0]))
    ensures Sorted([x] + s)
  {
    forall j | 0 <= j < |s| ensures Le(x, s[j]) {
      if j > 0 {
        LeTransitive(x, s[0], s[j]);
      }
    }
  }

  lemma {:induction false} InsertSorted(keys: seq<string>, order: seq<nat>, i: nat)
    requires Below(order, |keys|) && i < |keys| && Sorted(Apply(keys, order))
    ensures Sorted(Apply(keys, Insert(keys, order, i)))
  {
    if order == [] || Le(keys[i], keys[order[0]]) {
      SortedFromHead(keys[i], Apply(keys, order));
      ApplyHead(keys, i, order);
    } else {
      var rest := Insert(keys, order[1..], i);
      assert order == [order[0]] + order[1..];
      ApplyHead(keys, order[0], order[1..]);
      SortedTail(keys[order[0]], Apply(keys, order[1..]));
      InsertSorted(keys, order[1..], i);
      InsertedHead(keys, order, i);
      hide Sorted;
      SortedFromHead(keys[order[0]], Apply(keys, rest));
      ApplyHead(keys, order[0], rest);
    }
  }

  lemma ApplyHead(keys: seq<string>, i: nat, order: seq<nat>)
    requires i < |keys| && Below(order, |keys|)
    ensures Apply(keys, [i] + order) == [keys[i]] + Apply(keys, order)
  {
  }

  lemma SortedTail(x: string, s: seq<string>)
    requires Sorted([x] + s)
    ensures Sorted(s) && forall j | 0 <= j < |s| :: Le(x, s[j])
  {
    hide Le;
    var all := [x] + s;
    forall j | 0 <= j < |s| ensures Le(x, s[j]) { assert Le(all[0], all[j + 1]); }
    forall i, j | 0 <= i < j < |s| ensures Le(s[i], s[j]) { assert Le(all[i + 1], all[j + 1]); }
  }

  /** What the insertion starts with is not below the old head. */
  lemma InsertedHead(keys: seq<string>, order: seq<nat>, i: nat)
    requires Below(order, |keys|) && i < |keys| && order != [] && !Le(keys[i], keys[order[0]])
    requires forall j | 0 <= j < |order[1..]| :: Le(keys[order[0]], keys[order[1..][j]])
    ensures var rest := Insert(keys, order[1..], i); rest != [] && Le(keys[order[0]], keys[rest[0]])
  {
    LeTotal(keys[i], keys[order[0]]);
  }

  /** slices.SortFunc on indices. Callers only learn that the result is a sorting
      permutation: the library sort is not stable, so ties may come out in any
      order. */
  method SortFunc(keys: seq<string>) returns (indices: seq<nat>)
    ensures IsPermutation(indices, |keys|)
    ensures |indices| == |keys| && Below(indices, |keys|) && Sorted(Apply(keys, indices))
  {
    indices := [];
    for i := 0 to |keys|
      invariant Below(indices, |keys|) && Sorted(Apply(keys, indices))
      invariant multiset(indices) == multiset(Ids(i))
    {
      InsertMultiset(keys, indices, i);
      InsertSorted(keys, indices, i);
      indices := Insert(keys, indices, i);
      assert Ids(i + 1) == Ids(i) + [i];
    }
    PermutationFacts(indices, |keys|);
  }

  // ---- in place -------------------------------------------------------------------------

  /** s[i] = old s[indices[i]] */
  method Reorder(s: Slice, indices: seq<nat>)
    requires s.Valid() && |indices| == s.Len() && Below(indices, s.Len())
    modifies s.data
    ensures s.Elems() == Apply(old(s.Elems()), indices)
  {
    ghost var before := s.Elems();
    var sorted := new string[|indices|](_ => "");
    for i := 0 to |indices|
      invariant s.Elems() == before
      invariant sorted[..i] == Apply(before, indices)[..i]
    {
      sorted[i] := s.data[s.from + indices[i]];
    }
    for i := 0 to |indices|
      invariant sorted[..] == Apply(before, indices)
      invariant forall j | 0 <= j < i :: s.data[s.from + j] == sorted[j]
    {
      s.data[s.from + i] := sorted[i];
    }
    assert s.Elems() == sorted[..];
  }

  ghost predicate Unaliased(keys: Slice, parallel: seq<Slice>) {
    && keys.Valid()
    && (forall i | 0 <= i < |parallel| :: parallel[i].Valid() && parallel[i].data != keys.data)
    && (forall i, j | 0 <= i < j < |parallel| :: parallel[i].data != parallel[j].data)
  }

  function Permuted(s: seq<string>, order: seq<nat>): seq<string>
    requires Below(order, |order|)
  {
    if |s| == |order| then Apply(s, order) else s
  }

  /** The permutation that sorts the keys, applied to the keys and to every
      parallel slice of the same length; the others keep their order. */
  method SortLabels(keys: Slice, parallel: seq<Slice>) returns (ghost order: seq<nat>)
    requires Unaliased(keys, parallel)
    modifies keys.data, set i | 0 <= i < |parallel| :: parallel[i].data
    ensures IsPermutation(order, keys.Len()) && |order| == keys.Len() && Below(order, |order|)
    ensures keys.Elems() == Apply(old(keys.Elems()), order) && Sorted(keys.Elems())
    ensures forall i | 0 <= i < |parallel| :: parallel[i].Elems() == Permuted(old(parallel[i].Elems()), order)
  {
    hide Permuted, IsPermutation, Sorted, Below;
    var indices := SortFunc(keys.data[keys.from..keys.to]);
    order := indices;
    ghost var were := seq(|parallel|,
      i requires 0 <= i < |parallel| reads set j | 0 <= j < |parallel| :: parallel[j].data => parallel[i].Elems());
    Reorder(keys, indices);
    ghost var sorted := keys.Elems();
    for i := 0 to |parallel|
      invariant keys.Elems() == sorted
      invariant forall j | 0 <= j < i :: parallel[j].Elems() == Permuted(were[j], indices)
      invariant forall j | i <= j < |parallel| :: parallel[j].Elems() == were[j]
    {
      ReorderParallel(parallel[i], keys.Len(), indices);
    }
  }

  /** The loop body: only slices as long as the keys are permuted. */
  method ReorderParallel(p: Slice, n: nat, indices: seq<nat>)
    requires p.Valid() && |indices| == n && Below(indices, n)
    modifies p.data
    ensures p.Elems() == Permuted(old(p.Elems()), indices)
  {
    if p.Len() == n {
      Reorder(p, indices);
    }
  }
}
