/** Paths as parts with a separator between each two. */
module Slashes {

  /** The parts of `current + p`, where `current` is the part already begun. */
  function Split<T(==)>(p: seq<T>, slash: T, current: seq<T>): seq<seq<T>> {
    if p == [] then [current]
    else if p[0] == slash then [current] + Split(p[1..], slash, [])
    else Split(p[1..], slash, current + [p[0]])
  }

  function Joined<T>(parts: seq<seq<T>>, slash: T): seq<T> {
    if parts == [] then []
    else if |parts| == 1 then parts[0]
    else parts[0] + [slash] + Joined(parts[1..], slash)
  }

  /** Joining the parts of a path gives the path, and no part has a separator. */
  lemma {:induction false} SplitJoins<T>(p: seq<T>, slash: T, current: seq<T>)
    requires slash !in current
    ensures Split(p, slash, current) != [] && Joined(Split(p, slash, current), slash) == current + p
    ensures forall part <- Split(p, slash, current) :: slash !in part
  {
    if p == [] {
      assert current + p == current;
    } else if p[0] == slash {
      var rest := Split(p[1..], slash, []);
      SplitJoins(p[1..], slash, []);
      assert [] + p[1..] == p[1..];
      assert ([current] + rest)[1..] == rest;
      assert p == [slash] + p[1..];
      assert current + [slash] + p[1..] == current + ([slash] + p[1..]);
    } else {
      SplitJoins(p[1..], slash, current + [p[0]]);
      assert current + [p[0]] + p[1..] == current + p;
    }
  }

  lemma {:induction false} SplitPart<T>(part: seq<T>, rest: seq<T>, slash: T, current: seq<T>)
    requires slash !in part
    ensures Split(part + rest, slash, current) == Split(rest, slash, current + part)
  {
    if part == [] {
      assert part + rest == rest && current + part == current;
    } else {
      assert (part + rest)[1..] == part[1..] + rest;
      SplitPart(part[1..], rest, slash, current + [part[0]]);
      assert current + [part[0]] + part[1..] == current + part;
    }
  }

  /** Splitting joined parts gives them back. */
  lemma {:induction false} SplitOfJoined<T>(parts: seq<seq<T>>, slash: T)
    requires parts != [] && forall part <- parts :: slash !in part
    ensures Split(Joined(parts, slash), slash, []) == parts
  {
    SplitPart(parts[0], [], slash, []);
    assert parts[0] + [] == parts[0] && [] + parts[0] == parts[0];
    if |parts| > 1 {
      var rest := [slash] + Joined(parts[1..], slash);
      SplitPart(parts[0], rest, slash, []);
      assert parts[0] + [slash] + Joined(parts[1..], slash) == parts[0] + rest;
      assert rest[1..] == Joined(parts[1..], slash);
      SplitOfJoined(parts[1..], slash);
      assert [parts[0]] + parts[1..] == parts;
    } else {
      assert parts == [parts[0]];
    }
  }

  lemma {:induction false} PartOf<T>(parts: seq<seq<T>>, slash: T, part: seq<T>)
    requires part in parts
    ensures forall b <- part :: b in Joined(parts, slash)
  {
    if |parts| > 1 && part != parts[0] {
      PartOf(parts[1..], slash, part);
    }
  }

  /** What is in no part, and is not the separator, is not in the path. */
  lemma {:induction false} NotJoined<T>(parts: seq<seq<T>>, slash: T, b: T)
    requires b != slash && forall part <- parts :: b !in part
    ensures b !in Joined(parts, slash)
  {
    if |parts| > 1 {
      NotJoined(parts[1..], slash, b);
    }
  }

  lemma {:induction false} JoinedStarts<T>(parts: seq<seq<T>>, slash: T)
    requires parts != [] && parts[0] != []
    ensures Joined(parts, slash) != [] && Joined(parts, slash)[0] == parts[0][0]
  {
    if |parts| > 1 {
      assert parts[0] + [slash] + Joined(parts[1..], slash) == parts[0] + ([slash] + Joined(parts[1..], slash));
    }
  }
}
