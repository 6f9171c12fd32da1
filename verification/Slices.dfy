/** Go slices of strings: a window on a backing array, with append writing into
    spare capacity when there is any. */
module Slices {

  datatype Slice = Slice(data: array<string>, from: nat, to: nat) {
    ghost predicate Valid() {
      from <= to <= data.Length
    }

    function Len(): nat
      requires Valid()
    {
      to - from
    }

    ghost function Elems(): (s: seq<string>)
      requires Valid()
      reads data
      ensures |s| == to - from
    {
      data[from..to]
    }
  }

  method Nil() returns (s: Slice)
    ensures s.Valid() && fresh(s.data) && s.Elems() == []
  {
    var empty := new string[0];
    s := Slice(empty, 0, 0);
  }

  /** append(s, x). With spare capacity the element past the window is
      overwritten in place, otherwise the window is copied to a larger array. */
  method Append(s: Slice, x: string) returns (r: Slice)
    requires s.Valid()
    modifies s.data
    ensures r.Valid() && r.Elems() == old(s.Elems()) + [x]
    ensures s.Elems() == old(s.Elems())
    ensures r.data == s.data || fresh(r.data)
    ensures r.data == s.data ==> r.from == s.from
    ensures forall i | 0 <= i < s.data.Length && i != s.to :: s.data[i] == old(s.data[i])
  {
    if s.to < s.data.Length {
      s.data[s.to] := x;
      r := Slice(s.data, s.from, s.to + 1);
    } else {
      var spare :| 0 <= spare;
      var n := s.Len();
      var grown := new string[n + 1 + spare](_ => x);
      forall i | 0 <= i < n {
        grown[i] := s.data[s.from + i];
      }
      r := Slice(grown, 0, n + 1);
      assert r.Elems() == s.Elems() + [x];
    }
  }

  /** append(s, xs...) */
  method AppendAll(s: Slice, xs: seq<string>) returns (r: Slice)
    requires s.Valid()
    modifies s.data
    ensures r.Valid() && r.Elems() == old(s.Elems()) + xs
    ensures r.data == s.data || fresh(r.data)
  {
    r := s;
    for i := 0 to |xs|
      invariant r.Valid() && r.Elems() == old(s.Elems()) + xs[..i]
      invariant r.data == s.data || fresh(r.data)
    {
      r := Append(r, xs[i]);
      assert xs[..i + 1] == xs[..i] + [xs[i]];
    }
    assert xs[..|xs|] == xs;
  }
}
