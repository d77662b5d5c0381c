/** Day 6 (src/days/day_6.rs): the orbit map, where every object names the
    object it orbits; paths towards the universal centre of mass, the orbit
    count checksum and the fewest orbital transfers between two objects. */
module Day6 {
  import opened Wrappers
  import opened Strings

  /** Each object to its parent; `None` for an object seen only as a
      parent (a root, such as `COM`). */
  type OrbitMap = map<string, Option<string>>

  /** The update one line `A)B` makes: `A` is added as a root unless it is
      already present, then `B` orbits `A`, whatever was recorded for `B`
      before. A line without a `)` is fatal. */
  function AddOrbit(m: OrbitMap, line: string): (r: Result<OrbitMap>)
    ensures r.Ok? <==> |Split(line, ')')| >= 2
    ensures r.Ok? ==> var parent, child := Split(line, ')')[0], Split(line, ')')[1];
      && r.value.Keys == m.Keys + {parent, child}
      && r.value[child] == Some(parent)
      && (parent != child ==> r.value[parent] == (if parent in m then m[parent] else None))
      && (forall k :: k in m && k != parent && k != child ==> r.value[k] == m[k])
  {
    var orbit := Split(line, ')');
    if |orbit| < 2 then Err(MalformedOrbit)
    else
      var withParent := if orbit[0] in m then m else m[orbit[0] := None];
      Ok(withParent[orbit[1] := Some(orbit[0])])
  }

  /** Every recorded parent is itself an object of the map. */
  predicate Closed(m: OrbitMap) {
    forall k :: k in m && m[k].Some? ==> m[k].value in m
  }

  /** Adding an orbit keeps the map closed. */
  lemma AddOrbitKeepsClosed(m: OrbitMap, line: string)
    requires Closed(m) && AddOrbit(m, line).Ok?
    ensures Closed(AddOrbit(m, line).value)
  {
  }

  /** The lines folded into the map, in order, the first malformed line
      fatal. */
  function ParseLines(m: OrbitMap, lines: seq<string>): Result<OrbitMap>
    decreases |lines|
  {
    if lines == [] then Ok(m)
    else
      match AddOrbit(m, lines[0])
      case Err(e) => Err(e)
      case Ok(next) => ParseLines(next, lines[1..])
  }

  /** A parsed map fails exactly on a line without `)`, and is otherwise
      closed and holds both objects of every line. */
  lemma {:induction false} ParseLinesMeaning(m: OrbitMap, lines: seq<string>)
    requires Closed(m)
    ensures ParseLines(m, lines).Err? <==> exists i :: 0 <= i < |lines| && |Split(lines[i], ')')| < 2
    ensures ParseLines(m, lines).Ok? ==> Closed(ParseLines(m, lines).value)
    ensures ParseLines(m, lines).Ok? ==> m.Keys <= ParseLines(m, lines).value.Keys
    ensures ParseLines(m, lines).Ok? ==> forall i :: 0 <= i < |lines| ==>
      Split(lines[i], ')')[0] in ParseLines(m, lines).value && Split(lines[i], ')')[1] in ParseLines(m, lines).value
    decreases |lines|
  {
    if lines != [] {
      if AddOrbit(m, lines[0]).Ok? {
        var next := AddOrbit(m, lines[0]).value;
        AddOrbitKeepsClosed(m, lines[0]);
        ParseLinesMeaning(next, lines[1..]);
        assert forall i :: 1 <= i < |lines| ==> lines[i] == lines[1..][i - 1];
        if ParseLines(m, lines).Err? {
          var j :| 0 <= j < |lines[1..]| && |Split(lines[1..][j], ')')| < 2;
          assert |Split(lines[j + 1], ')')| < 2;
        }
      }
    }
  }

  /** `parse_orbit_map` on the lines of the input. */
  method ParseOrbitMap(lines: seq<string>) returns (r: Result<OrbitMap>)
    ensures r == ParseLines(map[], lines)
  {
    var objects: OrbitMap := map[];
    for i := 0 to |lines|
      invariant ParseLines(map[], lines) == ParseLines(objects, lines[i..])
    {
      assert lines[i..][1..] == lines[i + 1..];
      var orbit := Split(lines[i], ')');
      if |orbit| < 2 {
        return Err(MalformedOrbit);
      }
      if orbit[0] !in objects {
        objects := objects[orbit[0] := None];
      }
      objects := objects[orbit[1] := Some(orbit[0])];
    }
    assert lines[|lines|..] == [];
    return Ok(objects);
  }

  /** The objects met climbing from `current` towards a root, nearest
      first. The source loops for ever on a cycle; here a climb longer than
      `fuel` steps fails with `CyclicOrbitMap`. A parent missing from the
      map is fatal. */
  function Climb(m: OrbitMap, current: Option<string>, fuel: nat): (r: Result<seq<string>>)
    ensures r.Ok? ==> |r.value| <= fuel && (r.value == [] <==> current.None?)
    ensures r.Ok? && current.Some? ==> r.value[0] == current.value
    ensures r.Ok? ==> forall i :: 0 <= i < |r.value| ==> r.value[i] in m
    ensures r.Err? ==> r.error == CyclicOrbitMap || r.error == MissingObject
    decreases fuel
  {
    if current.None? then Ok([])
    else if fuel == 0 then Err(CyclicOrbitMap)
    else if current.value !in m then Err(MissingObject)
    else
      match Climb(m, m[current.value], fuel - 1)
      case Err(e) => Err(e)
      case Ok(rest) => Ok([current.value] + rest)
  }

  /** `path_to_com`: the ancestors of `name`, without `name` itself.
      An acyclic path has at most one entry per object, so `|m|` steps
      suffice. */
  function Ancestors(m: OrbitMap, name: string): (r: Result<seq<string>>)
    ensures name !in m ==> r == Err(MissingObject)
    ensures r.Ok? ==> |r.value| <= |m| && forall i :: 0 <= i < |r.value| ==> r.value[i] in m
    ensures r.Err? ==> r.error == CyclicOrbitMap || r.error == MissingObject
  {
    if name !in m then Err(MissingObject) else Climb(m, m[name], |m|)
  }

  /** More fuel does not change a climb that succeeded. */
  lemma {:induction false} ClimbFuel(m: OrbitMap, current: Option<string>, fuel: nat, more: nat)
    requires Climb(m, current, fuel).Ok? && fuel <= more
    ensures Climb(m, current, more) == Climb(m, current, fuel)
    decreases fuel
  {
    if current.Some? {
      ClimbFuel(m, m[current.value], fuel - 1, more - 1);
    }
  }

  /** Every entry of a successful climb is an object of the map, and the
      climb goes on from its parent with the rest of the path. */
  lemma {:induction false} ClimbSuffix(m: OrbitMap, current: Option<string>, fuel: nat, k: nat)
    requires Climb(m, current, fuel).Ok? && k < |Climb(m, current, fuel).value|
    ensures var path := Climb(m, current, fuel).value;
      && k < fuel && path[k] in m
      && Climb(m, m[path[k]], fuel - k - 1) == Ok(path[k + 1..])
    decreases k
  {
    var path := Climb(m, current, fuel).value;
    if k > 0 {
      ClimbSuffix(m, m[current.value], fuel - 1, k - 1);
      assert path[1..][k - 1..] == path[k..];
      assert path[1..][k..] == path[k + 1..];
    }
  }

  /** A successful path is a chain of parents: the first entry is the
      object's parent, each entry's parent is the next, and the last entry
      is a root; a root's path is empty. */
  lemma AncestorsAreParentChain(m: OrbitMap, name: string)
    requires Ancestors(m, name).Ok?
    ensures var path := Ancestors(m, name).value;
      && name in m
      && (path == [] <==> m[name].None?)
      && (path != [] ==> m[name] == Some(path[0]))
      && (forall i :: 0 <= i < |path| ==> path[i] in m)
      && (forall i :: 0 <= i < |path| - 1 ==> m[path[i]] == Some(path[i + 1]))
      && (path != [] ==> m[path[|path| - 1]].None?)
  {
    var path := Ancestors(m, name).value;
    forall i | 0 <= i < |path|
      ensures path[i] in m
      ensures i < |path| - 1 ==> m[path[i]] == Some(path[i + 1])
      ensures i == |path| - 1 ==> m[path[i]].None?
    {
      ClimbSuffix(m, m[name], |m|, i);
      if i == |path| - 1 {
        assert path[i + 1..] == [];
      }
    }
  }

  /** A successful path never visits an object twice. */
  lemma AncestorsAreDistinct(m: OrbitMap, name: string, i: nat, j: nat)
    requires Ancestors(m, name).Ok?
    requires i < j < |Ancestors(m, name).value|
    ensures Ancestors(m, name).value[i] != Ancestors(m, name).value[j]
  {
    var path := Ancestors(m, name).value;
    ClimbSuffix(m, m[name], |m|, i);
    ClimbSuffix(m, m[name], |m|, j);
    if path[i] == path[j] {
      ClimbFuel(m, m[path[j]], |m| - j - 1, |m| - i - 1);
    }
  }

  /** A successful path does not contain the object itself. */
  lemma AncestorsExcludeObject(m: OrbitMap, name: string)
    requires Ancestors(m, name).Ok?
    ensures name !in Ancestors(m, name).value
  {
    var path := Ancestors(m, name).value;
    if name in path {
      var k :| 0 <= k < |path| && path[k] == name;
      ClimbSuffix(m, m[name], |m|, k);
      ClimbFuel(m, m[name], |m| - k - 1, |m|);
    }
  }

  /** In a closed map no climb from an object runs into a missing parent:
      the only possible failure left is a cycle. */
  lemma {:induction false} ClosedClimbNeverMisses(m: OrbitMap, current: Option<string>, fuel: nat)
    requires Closed(m) && (current.Some? ==> current.value in m)
    ensures Climb(m, current, fuel) != Err(MissingObject)
    decreases fuel
  {
    if current.Some? && fuel > 0 {
      ClosedClimbNeverMisses(m, m[current.value], fuel - 1);
    }
  }

  /** `path_to_com`: the `while` loop pushing each parent in turn. */
  method PathToCom(name: string, m: OrbitMap) returns (r: Result<seq<string>>)
    ensures r == Ancestors(m, name)
  {
    if name !in m {
      return Err(MissingObject);
    }
    var path: seq<string> := [];
    var current := m[name];
    PrependEmpty(Climb(m, current, |m|));
    while current.Some?
      invariant |path| <= |m|
      invariant Ancestors(m, name) == Prepend(path, Climb(m, current, |m| - |path|))
      decreases |m| - |path|
    {
      if |path| == |m| {
        return Err(CyclicOrbitMap);
      }
      if current.value !in m {
        return Err(MissingObject);
      }
      PrependStep(path, m, current.value, |m| - |path|);
      path := path + [current.value];
      current := m[current.value];
    }
    assert path + [] == path;
    return Ok(path);
  }

  lemma PrependEmpty(r: Result<seq<string>>)
    ensures Prepend([], r) == r
  {
    if r.Ok? {
      assert [] + r.value == r.value;
    }
  }

  /** One turn of the loop moves the object from the climb to the path. */
  lemma PrependStep(path: seq<string>, m: OrbitMap, current: string, fuel: nat)
    requires fuel > 0 && current in m
    ensures Prepend(path, Climb(m, Some(current), fuel)) == Prepend(path + [current], Climb(m, m[current], fuel - 1))
  {
    var rest := Climb(m, m[current], fuel - 1);
    if rest.Ok? {
      assert path + ([current] + rest.value) == path + [current] + rest.value;
    }
  }

  /** `prefix` in front of a successful path; failures unchanged. */
  function Prepend(prefix: seq<string>, r: Result<seq<string>>): (p: Result<seq<string>>)
    ensures p.Ok? <==> r.Ok?
  {
    match r
    case Err(e) => Err(e)
    case Ok(path) => Ok(prefix + path)
  }

  /** Every object in `keys` has a path. */
  ghost predicate AllPathsExist(m: OrbitMap, keys: set<string>) {
    forall k :: k in keys ==> Ancestors(m, k).Ok?
  }

  /** The sum of the path lengths of `keys`, taken in an arbitrary order. */
  ghost function SumPathLengths(m: OrbitMap, keys: set<string>): nat
    requires AllPathsExist(m, keys)
    decreases keys
  {
    if keys == {} then 0
    else
      var k :| k in keys;
      |Ancestors(m, k).value| + SumPathLengths(m, keys - {k})
  }

  /** The sum does not depend on the order: any key can be taken first. */
  lemma {:induction false} SumPathLengthsAnyKey(m: OrbitMap, keys: set<string>, k: string)
    requires AllPathsExist(m, keys) && k in keys
    ensures SumPathLengths(m, keys) == |Ancestors(m, k).value| + SumPathLengths(m, keys - {k})
    decreases keys
  {
    var j :| j in keys && SumPathLengths(m, keys) == |Ancestors(m, j).value| + SumPathLengths(m, keys - {j});
    if j != k {
      SumPathLengthsAnyKey(m, keys - {j}, k);
      SumPathLengthsAnyKey(m, keys - {k}, j);
      assert keys - {j} - {k} == keys - {k} - {j};
    }
  }

  /** `orbit_count_checksum`: the number of direct and indirect orbits,
      the sum over all objects of the length of their path. A failing path
      (a panic in the source) fails the checksum. */
  ghost function Checksum(m: OrbitMap): (r: Result<nat>)
    ensures r.Err? <==> exists k :: k in m && Ancestors(m, k).Err?
    ensures r.Err? ==> exists k :: k in m && Ancestors(m, k) == Err(r.error)
  {
    if AllPathsExist(m, m.Keys) then Ok(SumPathLengths(m, m.Keys))
    else
      var k :| k in m && Ancestors(m, k).Err?;
      Err(Ancestors(m, k).error)
  }

  /** `COM)B` and `B)C`: `B` orbits once, `C` twice, directly and through
      `B`. */
  lemma ChecksumExample()
    ensures Checksum(map["COM" := None, "B" := Some("COM"), "C" := Some("B")]) == Ok(3)
  {
    ExampleSum(map["COM" := None, "B" := Some("COM"), "C" := Some("B")]);
  }

  /** The example's sum over all three objects. */
  lemma ExampleSum(m: OrbitMap)
    requires m == map["COM" := None, "B" := Some("COM"), "C" := Some("B")]
    ensures AllPathsExist(m, m.Keys) && SumPathLengths(m, m.Keys) == 3
  {
    ExamplePaths(m);
    assert AllPathsExist(m, m.Keys);
    ExampleInnerSum(m);
    SumPathLengthsAnyKey(m, m.Keys, "C");
    assert m.Keys - {"C"} == {"COM", "B"};
  }

  /** The example's sum without `C`: `B` orbits once, `COM` not at all. */
  lemma ExampleInnerSum(m: OrbitMap)
    requires m == map["COM" := None, "B" := Some("COM"), "C" := Some("B")]
    ensures AllPathsExist(m, {"COM", "B"}) && SumPathLengths(m, {"COM", "B"}) == 1
  {
    ExamplePaths(m);
    SumPathLengthsAnyKey(m, {"COM", "B"}, "B");
    assert {"COM", "B"} - {"B"} == {"COM"};
    SumPathLengthsAnyKey(m, {"COM"}, "COM");
    assert {"COM"} - {"COM"} == {};
  }

  lemma ExamplePaths(m: OrbitMap)
    requires m == map["COM" := None, "B" := Some("COM"), "C" := Some("B")]
    ensures m.Keys == {"COM", "B", "C"}
    ensures Ancestors(m, "COM") == Ok([]) && Ancestors(m, "B") == Ok(["COM"]) && Ancestors(m, "C") == Ok(["B", "COM"])
  {
    assert "COM" != "B" && "COM" != "C" && "B" != "C";
    assert m.Keys == {"COM", "B", "C"};
    assert |m| == 3;
    assert Climb(m, None, 0) == Ok([]);
    assert ["COM"] + [] == ["COM"];
    assert Climb(m, Some("COM"), 1) == Ok(["COM"]);
    assert ["B"] + ["COM"] == ["B", "COM"];
    assert Climb(m, Some("B"), 2) == Ok(["B", "COM"]);
    ClimbFuel(m, Some("COM"), 1, 3);
    ClimbFuel(m, Some("B"), 2, 3);
    assert Ancestors(m, "COM") == Ok([]);
    assert Ancestors(m, "B") == Ok(["COM"]);
    assert Ancestors(m, "C") == Ok(["B", "COM"]);
  }

  /** The number of trailing entries `a` and `b` share: the `take_while`
      over both paths zipped from the root end. */
  function CommonSuffixLength(a: seq<string>, b: seq<string>): (n: nat)
    ensures n <= |a| && n <= |b|
  {
    CommonFrom(a, b, 0)
  }

  /** The count, once `n` entries from the end are known to match. */
  function CommonFrom(a: seq<string>, b: seq<string>, n: nat): (c: nat)
    requires n <= |a| && n <= |b|
    ensures n <= c <= |a| && c <= |b|
    decreases |a| - n
  {
    if n < |a| && n < |b| && FromEnd(a, n) == FromEnd(b, n) then CommonFrom(a, b, n + 1) else n
  }

  /** The entry `k` places before the end. */
  function FromEnd(s: seq<string>, k: nat): string
    requires k < |s|
  {
    s[|s| - 1 - k]
  }

  /** `n` entries from the end match, and the next pair (if any) differs. */
  predicate SharedSuffix(a: seq<string>, b: seq<string>, n: nat) {
    && n <= |a| && n <= |b|
    && (forall k :: 0 <= k < n ==> FromEnd(a, k) == FromEnd(b, k))
    && (n < |a| && n < |b| ==> FromEnd(a, n) != FromEnd(b, n))
  }

  lemma {:induction false} CommonFromIsShared(a: seq<string>, b: seq<string>, n: nat)
    requires n <= |a| && n <= |b|
    requires forall k :: 0 <= k < n ==> FromEnd(a, k) == FromEnd(b, k)
    ensures SharedSuffix(a, b, CommonFrom(a, b, n))
    decreases |a| - n
  {
    if n < |a| && n < |b| && FromEnd(a, n) == FromEnd(b, n) {
      CommonFromIsShared(a, b, n + 1);
    }
  }

  /** The common suffix is shared and maximal, and it is the only such
      length. */
  lemma CommonSuffixIsShared(a: seq<string>, b: seq<string>, n: nat)
    ensures SharedSuffix(a, b, CommonSuffixLength(a, b))
    ensures SharedSuffix(a, b, n) ==> n == CommonSuffixLength(a, b)
  {
    CommonFromIsShared(a, b, 0);
  }

  /** `min_orbital_transfers`: both paths, less twice their shared part
      towards the root, which is never larger than either path. */
  function Transfers(m: OrbitMap, start: string, target: string): (r: Result<nat>)
    ensures r.Ok? <==> Ancestors(m, start).Ok? && Ancestors(m, target).Ok?
    ensures r.Ok? ==> r.value <= |Ancestors(m, start).value| + |Ancestors(m, target).value|
    ensures Ancestors(m, start).Err? ==> r == Err(Ancestors(m, start).error)
  {
    match Ancestors(m, start)
    case Err(e) => Err(e)
    case Ok(startPath) =>
      match Ancestors(m, target)
      case Err(e) => Err(e)
      case Ok(targetPath) =>
        Ok(|startPath| + |targetPath| - 2 * CommonSuffixLength(startPath, targetPath))
  }

  /** The number of transfers does not depend on which end is the start,
      when both paths exist. */
  lemma TransfersSymmetric(m: OrbitMap, start: string, target: string)
    requires Ancestors(m, start).Ok? && Ancestors(m, target).Ok?
    ensures Transfers(m, start, target) == Transfers(m, target, start)
  {
    var a, b := Ancestors(m, start).value, Ancestors(m, target).value;
    CommonSuffixIsShared(a, b, 0);
    CommonSuffixIsShared(b, a, CommonSuffixLength(a, b));
  }

  /** Going from an object to its own parent is a single transfer. */
  lemma TransferToParent(m: OrbitMap, child: string, parent: string)
    requires Ancestors(m, child).Ok? && child in m && m[child] == Some(parent)
    ensures Ancestors(m, parent).Ok?
    ensures Transfers(m, child, parent) == Ok(1)
  {
    var path := Ancestors(m, child).value;
    AncestorsAreParentChain(m, child);
    ClimbSuffix(m, m[child], |m|, 0);
    ClimbFuel(m, m[parent], |m| - 1, |m|);
    var rest := Ancestors(m, parent).value;
    assert rest == path[1..];
    assert forall k :: 0 <= k < |rest| ==> FromEnd(path, k) == FromEnd(rest, k);
    CommonSuffixIsShared(path, rest, |rest|);
  }

  /** An object is no transfers away from itself. */
  lemma TransferToSelf(m: OrbitMap, name: string)
    requires Ancestors(m, name).Ok?
    ensures Transfers(m, name, name) == Ok(0)
  {
    var path := Ancestors(m, name).value;
    CommonSuffixIsShared(path, path, |path|);
  }

  /** `min_orbital_transfers` computed with `PathToCom`. */
  method MinOrbitalTransfers(start: string, target: string, m: OrbitMap) returns (r: Result<nat>)
    ensures r == Transfers(m, start, target)
  {
    var startPath := PathToCom(start, m);
    if startPath.Err? {
      return Err(startPath.error);
    }
    var targetPath := PathToCom(target, m);
    if targetPath.Err? {
      return Err(targetPath.error);
    }
    var common := CommonSuffixLength(startPath.value, targetPath.value);
    return Ok(|startPath.value| + |targetPath.value| - 2 * common);
  }
}
