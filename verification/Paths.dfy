/** Portable relative paths. */
module Paths {
  import opened JsText
  import opened Ordering

  const SLASH: CodeUnit := 47

  /** `t.split("/")` */
  function Segments(t: Text): (parts: seq<Text>)
    ensures parts != []
  {
    if t == [] then [[]]
    else
      var rest := Segments(t[1..]);
      if t[0] == SLASH then [[]] + rest else [[t[0]] + rest[0]] + rest[1..]
  }

  function JoinSegments(parts: seq<Text>): Text
    requires parts != []
  {
    if |parts| == 1 then parts[0] else parts[0] + [SLASH] + JoinSegments(parts[1..])
  }

  lemma JoinNext(u: CodeUnit, parts: seq<Text>)
    requires parts != []
    ensures JoinSegments([[u] + parts[0]] + parts[1..]) == [u] + JoinSegments(parts)
  {
    var more := [[u] + parts[0]] + parts[1..];
    if |parts| > 1 {
      assert more[1..] == parts[1..];
      assert [u] + parts[0] + [SLASH] + JoinSegments(parts[1..]) == [u]
               + (parts[0] + [SLASH] + JoinSegments(parts[1..]));
    }
  }

  /** The segments of a path hold no slash and join to it again. */
  lemma {:induction false} SegmentsJoin(t: Text)
    ensures JoinSegments(Segments(t)) == t
    ensures forall i :: 0 <= i < |Segments(t)| ==> SLASH !in Segments(t)[i]
  {
    if t != [] {
      var rest := Segments(t[1..]);
      SegmentsJoin(t[1..]);
      assert t == [t[0]] + t[1..];
      if t[0] == SLASH {
        assert ([[]] + rest)[1..] == rest;
      } else {
        JoinNext(t[0], rest);
        assert forall i :: 0 < i < |Segments(t)| ==> Segments(t)[i] == rest[i];
      }
    }
  }

  predicate IsPathUnit(u: CodeUnit) {
    65 <= u <= 90 || 97 <= u <= 122 || IsDigit(u) || u == 46 || u == 95 || u == 45
  }

  /** `toLowerCase` on the units a valid path can hold. */
  function Lower(t: Text): Text {
    Map((u: CodeUnit) => if 65 <= u <= 90 then u + 32 else u, t)
  }
}
