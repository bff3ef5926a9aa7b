/** Dotted capability names (governance/model.py). */
module Capabilities {
  /** `Capability.is_descendant_of`. */
  predicate Descends(name: string, other: string) {
    name == other || other + "." <= name
  }

  /** Descent is a partial order on names. */
  lemma DescentIsPartialOrder(a: string, b: string, c: string)
    ensures Descends(a, a)
    ensures Descends(a, b) && Descends(b, a) ==> a == b
    ensures Descends(a, b) && Descends(b, c) ==> Descends(a, c)
  {
    if b + "." <= a && c + "." <= b {
      assert (c + ".")[..] == b[..|c| + 1] == a[..|c| + 1];
    }
  }

  /** The parts of a dotted name between its dots. */
  function Segments(name: string): (parts: seq<string>)
    ensures parts != []
  {
    if name == [] then [[]]
    else
      var rest := Segments(name[1..]);
      if name[0] == '.' then [[]] + rest else [[name[0]] + rest[0]] + rest[1..]
  }

  lemma {:induction false} SegmentsSplit(a: string, b: string)
    ensures Segments(a + "." + b) == Segments(a) + Segments(b)
  {
    if a == [] {
      assert a + "." + b == "." + b && ("." + b)[1..] == b;
    } else {
      assert (a + "." + b)[0] == a[0] && (a + "." + b)[1..] == a[1..] + "." + b;
      SegmentsSplit(a[1..], b);
    }
  }

  function Dotted(parts: seq<string>): string
    requires parts != []
  {
    if |parts| == 1 then parts[0] else parts[0] + "." + Dotted(parts[1..])
  }

  /** The segments of a name give it back. */
  lemma {:induction false} SegmentsRebuild(name: string)
    ensures Dotted(Segments(name)) == name
  {
    if name != [] {
      SegmentsRebuild(name[1..]);
      var rest, all := Segments(name[1..]), Segments(name);
      if name[0] == '.' {
        assert all[1..] == rest;
        assert Dotted(all) == [] + "." + Dotted(rest);
      } else if |rest| > 1 {
        assert all[1..] == rest[1..];
        assert Dotted(all) == [name[0]] + (rest[0] + "." + Dotted(rest[1..]));
      }
    }
  }

  lemma {:induction false} DottedComposes(a: seq<string>, b: seq<string>)
    requires a != [] && b != []
    ensures Dotted(a + b) == Dotted(a) + "." + Dotted(b)
  {
    if |a| == 1 {
      assert (a + b)[1..] == b;
    } else {
      assert (a + b)[0] == a[0] && (a + b)[1..] == a[1..] + b;
      DottedComposes(a[1..], b);
    }
  }

  /** Descent goes by whole segments: a name descends from another exactly when its
      segments begin with those of the other. */
  lemma DescentBySegments(name: string, other: string)
    ensures Descends(name, other) <==> Segments(other) <= Segments(name)
  {
    var a, b := Segments(name), Segments(other);
    SegmentsRebuild(name);
    SegmentsRebuild(other);
    if other + "." <= name {
      var rest := name[|other| + 1..];
      assert name == other + "." + rest;
      SegmentsSplit(other, rest);
    }
    if b <= a && a != b {
      var rest := a[|b|..];
      assert a == b + rest && rest != [];
      DottedComposes(b, rest);
    }
  }
}
