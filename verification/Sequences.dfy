/** Functions on sequences that more than one module needs. */
module Sequences {

  function Max(s: seq<nat>): (m: nat)
    ensures forall i :: 0 <= i < |s| ==> s[i] <= m
  {
    if s == [] then 0
    else
      var m := Max(s[..|s| - 1]);
      if m < s[|s| - 1] then s[|s| - 1] else m
  }

  lemma {:induction false} MaxOfZeros(s: seq<nat>)
    requires forall i :: 0 <= i < |s| ==> s[i] == 0
    ensures Max(s) == 0
  {
    if s != [] {
      MaxOfZeros(s[..|s| - 1]);
    }
  }

  function Flat<T>(parts: seq<seq<T>>): seq<T> {
    if parts == [] then [] else parts[0] + Flat(parts[1..])
  }

  lemma FlatOne<T>(part: seq<T>)
    ensures Flat([part]) == part
  {
    assert Flat([part][1..]) == [];
    assert part + [] == part;
  }

  lemma FlatFirst<T>(part: seq<T>, parts: seq<seq<T>>)
    ensures Flat([part] + parts) == part + Flat(parts) && Flat<T>([]) == []
  {
    assert ([part] + parts)[1..] == parts;
  }

  lemma Regroup<T>(a: seq<T>, b: seq<T>, c: seq<T>)
    ensures a + b + c == a + (b + c)
  {
  }

  lemma {:induction false} FlatAppend<T>(a: seq<seq<T>>, b: seq<seq<T>>)
    ensures Flat(a + b) == Flat(a) + Flat(b)
  {
    if a == [] {
      assert a + b == b;
    } else {
      hide Flat;
      var first, rest := a[0], a[1..];
      calc {
        Flat(a + b);
        { Regroup([first], rest, b); assert a == [first] + rest; }
        Flat([first] + (rest + b));
        { FlatFirst(first, rest + b); }
        first + Flat(rest + b);
        { FlatAppend(rest, b); }
        first + (Flat(rest) + Flat(b));
        { Regroup(first, Flat(rest), Flat(b)); }
        first + Flat(rest) + Flat(b);
        { FlatFirst(first, rest); assert a == [first] + rest; }
        Flat(a) + Flat(b);
      }
    }
  }

  lemma FlatLast<T>(parts: seq<seq<T>>, k: nat)
    requires k < |parts|
    ensures Flat(parts[..k + 1]) == Flat(parts[..k]) + parts[k]
  {
    hide Flat;
    assert parts[..k + 1] == parts[..k] + [parts[k]];
    FlatAppend(parts[..k], [parts[k]]);
    FlatOne(parts[k]);
  }

  lemma FlatFour<T>(a: seq<T>, b: seq<T>, c: seq<T>, d: seq<T>)
    ensures Flat([a, b, c, d]) == a + b + c + d
  {
    hide Flat;
    assert [a, b, c, d] == [a] + ([b] + ([c] + [d]));
    FlatFirst(a, [b] + ([c] + [d]));
    FlatFirst(b, [c] + [d]);
    FlatFirst(c, [d]);
    FlatOne(d);
    assert a + (b + (c + d)) == a + b + c + d;
  }
}
