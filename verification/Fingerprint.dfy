/** The source fingerprint of the browser payload: the order of its inputs, the duplicate check and
    the byte stream that is hashed. */
module Fingerprint {
  import opened Basics
  import opened Unicode
  import opened StubText

  /** A source file: its label as a JavaScript string and its contents decoded as UTF-8. */
  datatype Source = Source(name: seq<Unit>, text: seq<Scalar>)

  // ----------------------------------------------------------- order, duplicates

  /** JavaScript's comparison of strings. */
  predicate AtMost(a: seq<Unit>, b: seq<Unit>) {
    a == [] || (b != [] && (a[0] < b[0] || (a[0] == b[0] && AtMost(a[1..], b[1..]))))
  }

  lemma {:induction false} OrderIsTotal(a: seq<Unit>, b: seq<Unit>)
    ensures AtMost(a, b) || AtMost(b, a)
    ensures AtMost(a, b) && AtMost(b, a) ==> a == b
  {
    if a != [] && b != [] && a[0] == b[0] {
      OrderIsTotal(a[1..], b[1..]);
      assert a == [a[0]] + a[1..] && b == [b[0]] + b[1..];
    }
  }

  lemma {:induction false} OrderIsTransitive(a: seq<Unit>, b: seq<Unit>, c: seq<Unit>)
    requires AtMost(a, b) && AtMost(b, c)
    ensures AtMost(a, c)
  {
    if a != [] && a[0] == b[0] == c[0] {
      OrderIsTransitive(a[1..], b[1..], c[1..]);
    }
  }

  /** The order is by the first unit that differs, and a string comes before those it starts. */
  lemma {:induction false} OrderIsByFirstDifference(a: seq<Unit>, b: seq<Unit>)
    ensures AtMost(a, b) <==> a <= b || exists k :: 0 <= k < |a| && k < |b| && a[..k] == b[..k] && a[k] < b[k]
  {
    if a != [] && b != [] {
      if a[0] == b[0] {
        var x, y := a[1..], b[1..];
        OrderIsByFirstDifference(x, y);
        assert a == [a[0]] + x && b == [b[0]] + y;
        assert x <= y <==> a <= b;
        forall k | 0 <= k < |x| && k < |y| && x[..k] == y[..k] && x[k] < y[k]
          ensures a[..k + 1] == b[..k + 1] && a[k + 1] < b[k + 1]
        {
          assert a[..k + 1] == [a[0]] + x[..k] && b[..k + 1] == [b[0]] + y[..k];
        }
        forall k | 0 <= k < |a| && k < |b| && a[..k] == b[..k] && a[k] < b[k]
          ensures k > 0 && x[..k - 1] == y[..k - 1] && x[k - 1] < y[k - 1]
        {
          assert x[..k - 1] == a[..k][1..] && y[..k - 1] == b[..k][1..];
        }
      } else {
        assert a[..0] == b[..0];
        assert forall k | 0 < k < |a| && k < |b| && a[..k] == b[..k] :: a[..k][0] == b[..k][0];
      }
    }
  }

  function Insert(x: Source, s: seq<Source>): seq<Source> {
    if s == [] || AtMost(x.name, s[0].name) then [x] + s else [s[0]] + Insert(x, s[1..])
  }

  /** Sorting by label. */
  function SortByLabel(s: seq<Source>): seq<Source> {
    if s == [] then [] else Insert(s[0], SortByLabel(s[1..]))
  }

  predicate Ascending(s: seq<Source>) {
    forall i, j | 0 <= i < j < |s| :: AtMost(s[i].name, s[j].name)
  }

  predicate HasLabel(s: seq<Source>, name: seq<Unit>) {
    exists i :: 0 <= i < |s| && s[i].name == name
  }

  predicate Repeats(s: seq<Source>) {
    exists i, j :: 0 <= i < j < |s| && s[i].name == s[j].name
  }

  lemma HasLabelFirst(x: Source, s: seq<Source>)
    ensures forall l :: HasLabel([x] + s, l) <==> x.name == l || HasLabel(s, l)
  {
    var t := [x] + s;
    assert t[0] == x;
    forall l | HasLabel(s, l) ensures HasLabel(t, l) {
      var i :| 0 <= i < |s| && s[i].name == l;
      assert t[i + 1].name == l;
    }
    forall l | HasLabel(t, l) && l != x.name ensures HasLabel(s, l) {
      var i :| 0 <= i < |t| && t[i].name == l;
      assert s[i - 1].name == l;
    }
  }

  lemma RepeatsFirst(x: Source, s: seq<Source>)
    ensures Repeats([x] + s) <==> HasLabel(s, x.name) || Repeats(s)
  {
    var t := [x] + s;
    if HasLabel(s, x.name) {
      var i :| 0 <= i < |s| && s[i].name == x.name;
      assert t[0].name == t[i + 1].name;
    }
    if Repeats(s) {
      var i, j :| 0 <= i < j < |s| && s[i].name == s[j].name;
      assert t[i + 1].name == t[j + 1].name;
    }
    if Repeats(t) {
      var i, j :| 0 <= i < j < |t| && t[i].name == t[j].name;
      if i == 0 {
        assert s[j - 1].name == x.name;
      } else {
        assert s[i - 1].name == s[j - 1].name;
      }
    }
  }

  lemma {:induction false} InsertAdds(x: Source, s: seq<Source>)
    ensures multiset(Insert(x, s)) == multiset(s) + multiset{x}
    ensures Repeats(Insert(x, s)) <==> HasLabel(s, x.name) || Repeats(s)
    ensures forall l :: HasLabel(Insert(x, s), l) <==> x.name == l || HasLabel(s, l)
    decreases |s|
  {
    if s == [] || AtMost(x.name, s[0].name) {
      RepeatsFirst(x, s);
      HasLabelFirst(x, s);
    } else {
      var rest := s[1..];
      InsertAdds(x, rest);
      RepeatsFirst(s[0], Insert(x, rest));
      HasLabelFirst(s[0], Insert(x, rest));
      RepeatsFirst(s[0], rest);
      HasLabelFirst(s[0], rest);
      assert s == [s[0]] + rest;
    }
  }

  lemma {:induction false} InsertSorts(x: Source, s: seq<Source>)
    requires Ascending(s)
    ensures Ascending(Insert(x, s))
    decreases |s|
  {
    if s == [] {
    } else if AtMost(x.name, s[0].name) {
      forall l | HasLabel(s, l) ensures AtMost(x.name, l) {
        var i :| 0 <= i < |s| && s[i].name == l;
        if i > 0 { OrderIsTransitive(x.name, s[0].name, l); }
      }
      PrependAscends(x, s);
    } else {
      OrderIsTotal(x.name, s[0].name);
      var rest := s[1..];
      InsertSorts(x, rest);
      InsertAdds(x, rest);
      forall l | HasLabel(Insert(x, rest), l) ensures AtMost(s[0].name, l) {
        if l != x.name {
          var i :| 0 <= i < |rest| && rest[i].name == l;
          assert s[i + 1] == rest[i];
        }
      }
      PrependAscends(s[0], Insert(x, rest));
    }
  }

  lemma PrependAscends(x: Source, s: seq<Source>)
    requires Ascending(s) && forall l | HasLabel(s, l) :: AtMost(x.name, l)
    ensures Ascending([x] + s)
  {
    var t := [x] + s;
    forall i, j | 0 <= i < j < |t| ensures AtMost(t[i].name, t[j].name) {
      assert t[j] == s[j - 1];
      if i == 0 {
        assert HasLabel(s, s[j - 1].name);
      } else {
        assert t[i] == s[i - 1];
      }
    }
  }

  lemma {:induction false} SortSorts(s: seq<Source>)
    ensures Ascending(SortByLabel(s)) && multiset(SortByLabel(s)) == multiset(s)
    ensures Repeats(SortByLabel(s)) <==> Repeats(s)
    ensures forall l :: HasLabel(SortByLabel(s), l) <==> HasLabel(s, l)
    decreases |s|
  {
    if s != [] {
      SortSorts(s[1..]);
      InsertSorts(s[0], SortByLabel(s[1..]));
      InsertAdds(s[0], SortByLabel(s[1..]));
      RepeatsFirst(s[0], s[1..]);
      HasLabelFirst(s[0], s[1..]);
      assert s == [s[0]] + s[1..];
    }
  }

  /** In a sorted list a repeated label is next to itself. */
  lemma RepeatsAreAdjacent(s: seq<Source>)
    requires Ascending(s)
    ensures Repeats(s) <==> exists i :: 1 <= i < |s| && s[i - 1].name == s[i].name
  {
    if Repeats(s) {
      var i, j :| 0 <= i < j < |s| && s[i].name == s[j].name;
      assert AtMost(s[i].name, s[i + 1].name);
      assert i + 1 < j ==> AtMost(s[i + 1].name, s[j].name);
      OrderIsTotal(s[i].name, s[i + 1].name);
      assert s[(i + 1) - 1].name == s[i + 1].name;
    }
  }

  // -------------------------------------------------------------------- the walk

  const SLASH: Unit := 0x2F

  /** What a directory holds, in the order in which it is read and sorted. */
  datatype Node =
    | FileNode(name: seq<Unit>, text: seq<Scalar>)
    | DirectoryNode(name: seq<Unit>, nodes: seq<Node>)
    | OtherNode(name: seq<Unit>)

  datatype Directory = Directory(name: seq<Unit>, nodes: seq<Node>)

  function Child(directory: seq<Unit>, name: seq<Unit>): seq<Unit> {
    directory + [SLASH] + name
  }

  function Joined(front: seq<Source>, back: Option<seq<Source>>): Option<seq<Source>> {
    if back.None? then None else Some(front + back.value)
  }

  /** The files below a directory, or `None` if something below is neither file nor directory. */
  function Files(directory: seq<Unit>, nodes: seq<Node>): Option<seq<Source>>
    decreases nodes
  {
    if nodes == [] then Some([])
    else
      match nodes[0]
      case FileNode(name, text) => Joined([Source(Child(directory, name), text)], Files(directory, nodes[1..]))
      case OtherNode(_) => None
      case DirectoryNode(name, inner) =>
        match Files(Child(directory, name), inner)
        case None => None
        case Some(below) => Joined(below, Files(directory, nodes[1..]))
  }

  /** The label of what a path leads to. */
  function Label(directory: seq<Unit>, path: seq<seq<Unit>>): seq<Unit>
    decreases |path|
  {
    if path == [] then directory else Label(directory + [0x2F] + path[0], path[1..])
  }

  /** Following `path` leads to `leaf`. */
  ghost predicate LeadsTo(nodes: seq<Node>, path: seq<seq<Unit>>, leaf: Node)
    decreases |path|
  {
    && path != []
    && exists i :: 0 <= i < |nodes| && nodes[i].name == path[0]
                   && (if |path| == 1 then nodes[i] == leaf
                       else nodes[i].DirectoryNode? && LeadsTo(nodes[i].nodes, path[1..], leaf))
  }

  ghost predicate FileBelow(directory: seq<Unit>, nodes: seq<Node>, s: Source) {
    exists path, leaf :: LeadsTo(nodes, path, leaf) && leaf.FileNode? && s == Source(Label(directory, path), leaf.text)
  }

  ghost predicate OtherBelow(nodes: seq<Node>) {
    exists path, leaf :: LeadsTo(nodes, path, leaf) && leaf.OtherNode?
  }

  /** Where a path can go from a list of nodes: into the first of them or into the rest. */
  lemma LeadsIntoFirstOrRest(nodes: seq<Node>, path: seq<seq<Unit>>, leaf: Node)
    requires nodes != []
    ensures LeadsTo(nodes, path, leaf) <==> LeadsTo(nodes[..1], path, leaf) || LeadsTo(nodes[1..], path, leaf)
  {
    if LeadsTo(nodes, path, leaf) {
      var i :| 0 <= i < |nodes| && nodes[i].name == path[0]
               && (if |path| == 1 then nodes[i] == leaf else nodes[i].DirectoryNode? && LeadsTo(nodes[i].nodes, path[1..], leaf));
      if i == 0 {
        assert nodes[..1][0] == nodes[0];
      } else {
        assert nodes[1..][i - 1] == nodes[i];
      }
    }
    if LeadsTo(nodes[1..], path, leaf) {
      var i :| 0 <= i < |nodes[1..]| && nodes[1..][i].name == path[0]
               && (if |path| == 1 then nodes[1..][i] == leaf
                   else nodes[1..][i].DirectoryNode? && LeadsTo(nodes[1..][i].nodes, path[1..], leaf));
      assert nodes[i + 1] == nodes[1..][i];
    }
    if LeadsTo(nodes[..1], path, leaf) {
      assert nodes[..1][0] == nodes[0];
    }
  }

  lemma BelowFirstOrRest(directory: seq<Unit>, nodes: seq<Node>)
    requires nodes != []
    ensures OtherBelow(nodes) <==> OtherBelow(nodes[..1]) || OtherBelow(nodes[1..])
    ensures forall s :: FileBelow(directory, nodes, s) <==> FileBelow(directory, nodes[..1], s) || FileBelow(directory, nodes[1..], s)
  {
    forall path, leaf
      ensures LeadsTo(nodes, path, leaf) <==> LeadsTo(nodes[..1], path, leaf) || LeadsTo(nodes[1..], path, leaf)
    {
      LeadsIntoFirstOrRest(nodes, path, leaf);
    }
  }

  /** From a single node that is no directory a path leads to that node and nowhere else. */
  lemma LeadsToLeaf(node: Node, path: seq<seq<Unit>>, leaf: Node)
    requires !node.DirectoryNode?
    ensures LeadsTo([node], path, leaf) <==> path == [node.name] && leaf == node
  {
    if path == [node.name] && leaf == node {
      assert [node][0] == node;
    }
  }

  lemma BelowLeaf(directory: seq<Unit>, node: Node)
    requires !node.DirectoryNode?
    ensures OtherBelow([node]) <==> node.OtherNode?
    ensures forall s :: FileBelow(directory, [node], s) <==> node.FileNode? && s == Source(Child(directory, node.name), node.text)
  {
    forall path, leaf ensures LeadsTo([node], path, leaf) <==> path == [node.name] && leaf == node {
      LeadsToLeaf(node, path, leaf);
    }
    assert LeadsTo([node], [node.name], node);
    assert Label(directory, [node.name]) == Child(directory, node.name) by {
      assert Label(Child(directory, node.name), []) == Child(directory, node.name);
    }
  }

  lemma LeadsThrough(name: seq<Unit>, inner: seq<Node>, path: seq<seq<Unit>>, leaf: Node)
    requires !leaf.DirectoryNode?
    ensures LeadsTo([DirectoryNode(name, inner)], path, leaf)
       <==> path != [] && path[0] == name && LeadsTo(inner, path[1..], leaf)
  {
    var nodes := [DirectoryNode(name, inner)];
    if path != [] && path[0] == name && LeadsTo(inner, path[1..], leaf) {
      assert nodes[0].name == path[0] && nodes[0].DirectoryNode?;
    }
  }

  lemma BelowDirectory(directory: seq<Unit>, name: seq<Unit>, inner: seq<Node>)
    ensures OtherBelow([DirectoryNode(name, inner)]) <==> OtherBelow(inner)
    ensures forall s :: FileBelow(directory, [DirectoryNode(name, inner)], s) <==> FileBelow(Child(directory, name), inner, s)
  {
    var nodes := [DirectoryNode(name, inner)];
    forall path, leaf: Node | !leaf.DirectoryNode?
      ensures LeadsTo(nodes, path, leaf) <==> path != [] && path[0] == name && LeadsTo(inner, path[1..], leaf)
    {
      LeadsThrough(name, inner, path, leaf);
    }
    forall path, leaf: Node | !leaf.DirectoryNode? && LeadsTo(inner, path, leaf)
      ensures LeadsTo(nodes, [name] + path, leaf) && Label(directory, [name] + path) == Label(Child(directory, name), path)
    {
      assert ([name] + path)[1..] == path;
      LeadsThrough(name, inner, [name] + path, leaf);
    }
    forall s | FileBelow(Child(directory, name), inner, s) ensures FileBelow(directory, nodes, s) {
      var path, leaf :| LeadsTo(inner, path, leaf) && leaf.FileNode? && s == Source(Label(Child(directory, name), path), leaf.text);
      assert LeadsTo(nodes, [name] + path, leaf);
    }
    if OtherBelow(inner) {
      var path, leaf :| LeadsTo(inner, path, leaf) && leaf.OtherNode?;
      assert LeadsTo(nodes, [name] + path, leaf);
    }
  }

  /** The walk finds exactly the files that some path leads to, under the label of that path, and fails
      exactly when some path leads to something else. */
  lemma {:induction false} FilesAreThosePathsLeadTo(directory: seq<Unit>, nodes: seq<Node>)
    ensures Files(directory, nodes).None? <==> OtherBelow(nodes)
    ensures Files(directory, nodes).Some? ==> forall s :: s in Files(directory, nodes).value <==> FileBelow(directory, nodes, s)
    decreases nodes
  {
    if nodes != [] {
      var node := nodes[0];
      assert nodes[..1] == [node];
      BelowFirstOrRest(directory, nodes);
      FilesAreThosePathsLeadTo(directory, nodes[1..]);
      if node.DirectoryNode? {
        BelowDirectory(directory, node.name, node.nodes);
        FilesAreThosePathsLeadTo(Child(directory, node.name), node.nodes);
      } else {
        BelowLeaf(directory, node);
      }
    }
  }

  /** Names in a directory differ from each other and contain no slash, at every depth. */
  predicate Proper(nodes: seq<Node>)
    decreases nodes
  {
    && (forall i, j | 0 <= i < j < |nodes| :: nodes[i].name != nodes[j].name)
    && (forall i | 0 <= i < |nodes| :: SLASH !in nodes[i].name)
    && (forall i | 0 <= i < |nodes| && nodes[i].DirectoryNode? :: Proper(nodes[i].nodes))
  }

  /** The label of a child or of something below it. */
  predicate Under(directory: seq<Unit>, name: seq<Unit>, full: seq<Unit>) {
    var child := directory + [SLASH] + name;
    child <= full && (|child| < |full| ==> full[|child|] == SLASH)
  }

  /** The name goes up to the next slash or to the end. */
  lemma NameGoesToSlash(directory: seq<Unit>, x: seq<Unit>, full: seq<Unit>)
    requires Under(directory, x, full) && SLASH !in x
    ensures var n, m := |directory| + 1, |directory| + 1 + |x|;
            && m <= |full| && full[n..m] == x && (m < |full| ==> full[m] == SLASH)
            && (forall k | n <= k < m :: full[k] != SLASH)
  {
    var n, m := |directory| + 1, |directory| + 1 + |x|;
    var child := directory + [SLASH] + x;
    assert child[n..m] == x && full[..m] == child;
    assert forall k | n <= k < m :: full[k] == x[k - n];
  }

  lemma NamesTellApart(directory: seq<Unit>, x: seq<Unit>, y: seq<Unit>, full: seq<Unit>)
    requires Under(directory, x, full) && Under(directory, y, full) && SLASH !in x && SLASH !in y
    ensures x == y
  {
    NameGoesToSlash(directory, x, full);
    NameGoesToSlash(directory, y, full);
  }

  lemma {:induction false} FilesLieUnder(directory: seq<Unit>, nodes: seq<Node>)
    requires Files(directory, nodes).Some?
    ensures forall s | s in Files(directory, nodes).value :: exists i :: 0 <= i < |nodes| && Under(directory, nodes[i].name, s.name)
    decreases nodes
  {
    if nodes != [] {
      var rest := nodes[1..];
      FilesLieUnder(directory, rest);
      var node := nodes[0];
      if node.DirectoryNode? {
        var child := Child(directory, node.name);
        FilesLieUnder(child, node.nodes);
      }
      forall s | s in Files(directory, nodes).value ensures exists i :: 0 <= i < |nodes| && Under(directory, nodes[i].name, s.name) {
        if s in Files(directory, rest).value {
          var i :| 0 <= i < |rest| && Under(directory, rest[i].name, s.name);
          assert nodes[i + 1] == rest[i];
        } else if node.DirectoryNode? {
          var child := Child(directory, node.name);
          var i :| 0 <= i < |node.nodes| && Under(child, node.nodes[i].name, s.name);
          assert (child + [SLASH] + node.nodes[i].name)[..|child|] == child;
          assert Under(directory, nodes[0].name, s.name);
        } else {
          assert Under(directory, nodes[0].name, s.name);
        }
      }
    }
  }

  lemma RepeatsInEither(a: seq<Source>, b: seq<Source>)
    requires !Repeats(a) && !Repeats(b) && forall i, j | 0 <= i < |a| && 0 <= j < |b| :: a[i].name != b[j].name
    ensures !Repeats(a + b)
  {
    forall i, j | 0 <= i < j < |a + b| ensures (a + b)[i].name != (a + b)[j].name {
    }
  }

  lemma OneSource(s: Source)
    ensures !Repeats([s])
  {
  }

  /** Below one directory no label occurs twice. */
  lemma {:induction false} WalkDoesNotRepeat(directory: seq<Unit>, nodes: seq<Node>)
    requires Proper(nodes) && Files(directory, nodes).Some?
    ensures !Repeats(Files(directory, nodes).value)
    decreases nodes
  {
    if nodes != [] {
      var node, rest := nodes[0], nodes[1..];
      assert forall i | 0 <= i < |rest| :: rest[i] == nodes[i + 1];
      assert nodes[..1] == [node];
      WalkDoesNotRepeat(directory, rest);
      var first := if node.DirectoryNode? then Files(Child(directory, node.name), node.nodes).value
                   else [Source(Child(directory, node.name), node.text)];
      if node.DirectoryNode? {
        WalkDoesNotRepeat(Child(directory, node.name), node.nodes);
      }
      var more := Files(directory, rest).value;
      assert Files(directory, nodes).value == first + more;
      assert Files(directory, [node]) == Some(first) by {
        assert [node][1..] == [] && first + [] == first;
      }
      FilesLieUnder(directory, [node]);
      FilesLieUnder(directory, rest);
      forall i, j | 0 <= i < |first| && 0 <= j < |more| ensures first[i].name != more[j].name {
        assert first[i] in first && more[j] in more;
        assert Under(directory, node.name, first[i].name);
        var k :| 0 <= k < |rest| && Under(directory, rest[k].name, more[j].name);
        if first[i].name == more[j].name {
          NamesTellApart(directory, node.name, rest[k].name, more[j].name);
        }
      }
      RepeatsInEither(first, more);
    }
  }

  lemma JoinedTwice(a: seq<Source>, b: seq<Source>, more: Option<seq<Source>>)
    ensures Joined(a, Joined(b, more)) == Joined(a + b, more) && Joined([], more) == more
  {
    if more.Some? {
      assert a + (b + more.value) == a + b + more.value && [] + more.value == more.value;
    }
  }

  method Walk(directory: seq<Unit>, nodes: seq<Node>) returns (result: Option<seq<Source>>)
    ensures result == Files(directory, nodes)
    decreases nodes
  {
    var collected: seq<Source> := [];
    JoinedTwice([], [], Files(directory, nodes));
    assert nodes[0..] == nodes;
    for i := 0 to |nodes|
      invariant Files(directory, nodes) == Joined(collected, Files(directory, nodes[i..]))
    {
      assert nodes[i..][1..] == nodes[i + 1..];
      ghost var rest := Files(directory, nodes[i + 1..]);
      var below: seq<Source> := [];
      match nodes[i] {
        case FileNode(name, text) => below := [Source(Child(directory, name), text)];
        case OtherNode(_) => return None;
        case DirectoryNode(name, inner) =>
          var found := Walk(Child(directory, name), inner);
          if found.None? {
            return None;
          }
          below := found.value;
      }
      JoinedTwice(collected, below, rest);
      collected := collected + below;
    }
    assert nodes[|nodes|..] == [] && collected + [] == collected;
    return Some(collected);
  }

  /** The files of a walk, as often as it finds them. */
  function Found(d: Directory): multiset<Source> {
    if Files(d.name, d.nodes).Some? then multiset(Files(d.name, d.nodes).value) else multiset{}
  }

  /** The files given by name and those below each given directory. */
  function Gathered(files: seq<Source>, directories: seq<Directory>): multiset<Source> {
    if directories == [] then multiset(files)
    else Gathered(files, directories[..|directories| - 1]) + Found(directories[|directories| - 1])
  }

  ghost predicate RepeatsIn(sources: multiset<Source>) {
    exists s, t :: s in sources && t in sources && s.name == t.name && (s != t || sources[s] > 1)
  }

  lemma TwicePicked(s: seq<Source>, i: nat, j: nat)
    requires i < j < |s| && s[i] == s[j]
    ensures multiset(s)[s[i]] > 1
  {
    assert s == s[..j] + [s[j]] + s[j + 1..];
    assert s[i] in s[..j] by { assert s[..j][i] == s[i]; }
  }

  lemma PickedTwice(s: seq<Source>, x: Source) returns (i: nat, j: nat)
    requires multiset(s)[x] > 1
    ensures i < j < |s| && s[i] == s[j] == x
  {
    var k: nat :| k < |s| && s[k] == x;
    var front, back := s[..k], s[k + 1..];
    assert s == front + [x] + back;
    if x in front {
      i :| 0 <= i < |front| && front[i] == x;
      j := k;
    } else {
      assert x in back;
      var m: nat :| m < |back| && back[m] == x;
      i, j := k, k + 1 + m;
    }
  }

  lemma RepeatsAsMultiset(s: seq<Source>)
    ensures Repeats(s) <==> RepeatsIn(multiset(s))
  {
    if Repeats(s) {
      var i, j :| 0 <= i < j < |s| && s[i].name == s[j].name;
      if s[i] == s[j] {
        TwicePicked(s, i, j);
      }
      assert s[i] in multiset(s) && s[j] in multiset(s);
    }
    if RepeatsIn(multiset(s)) {
      var x, y :| x in multiset(s) && y in multiset(s) && x.name == y.name && (x != y || multiset(s)[x] > 1);
      if x != y {
        var i :| 0 <= i < |s| && s[i] == x;
        var j :| 0 <= j < |s| && s[j] == y;
        assert s[if i < j then i else j].name == s[if i < j then j else i].name;
      } else {
        var i, j := PickedTwice(s, x);
      }
    }
  }

  ghost predicate OtherBelowAny(directories: seq<Directory>) {
    exists d :: d in directories && OtherBelow(d.nodes)
  }

  ghost predicate FileBelowAny(directories: seq<Directory>, s: Source) {
    exists d :: d in directories && FileBelow(d.name, d.nodes, s)
  }

  lemma BelowLastOrOthers(directories: seq<Directory>, d: Directory)
    ensures OtherBelowAny(directories + [d]) <==> OtherBelowAny(directories) || OtherBelow(d.nodes)
    ensures forall s :: FileBelowAny(directories + [d], s) <==> FileBelowAny(directories, s) || FileBelow(d.name, d.nodes, s)
  {
    hide OtherBelow;
    hide FileBelow;
    assert forall x :: x in directories + [d] <==> x in directories || x == d;
  }

  /** What is gathered is what was given and what lies below. */
  lemma {:induction false} GatheredLieBelow(files: seq<Source>, directories: seq<Directory>)
    requires !OtherBelowAny(directories)
    ensures forall s :: s in Gathered(files, directories) <==> s in files || FileBelowAny(directories, s)
    decreases |directories|
  {
    if directories != [] {
      var most, d := directories[..|directories| - 1], directories[|directories| - 1];
      assert directories == most + [d];
      BelowLastOrOthers(most, d);
      GatheredLieBelow(files, most);
      FilesAreThosePathsLeadTo(d.name, d.nodes);
      hide OtherBelow;
      hide FileBelow;
      hide FileBelowAny;
      hide Files;
    }
  }

  /** Reads exactly the files given and those below the given directories, in ascending order of their
      labels; refuses exactly when something below a directory is neither file nor directory, or when a
      label occurs twice, wherever it occurs. */
  method ReadSourceInputs(files: seq<Source>, directories: seq<Directory>) returns (result: Option<seq<Source>>)
    ensures result.None? <==> OtherBelowAny(directories) || RepeatsIn(Gathered(files, directories))
    ensures result.Some? ==> forall s :: s in result.value <==> s in files || FileBelowAny(directories, s)
    ensures result.Some? ==> Ascending(result.value) && multiset(result.value) == Gathered(files, directories)
  {
    hide OtherBelow;
    hide FileBelow;
    hide FileBelowAny;
    hide OtherBelowAny;
    hide RepeatsIn;
    var collected := files;
    NoDirectories(files);
    for i := 0 to |directories|
      invariant !OtherBelowAny(directories[..i])
      invariant multiset(collected) == Gathered(files, directories[..i])
    {
      var d := directories[i];
      CollectStep(files, directories, i);
      var below := Walk(d.name, d.nodes);
      if below.None? {
        return None;
      }
      collected := collected + below.value;
    }
    assert directories[..|directories|] == directories;
    RepeatsAsMultiset(collected);
    GatheredLieBelow(files, directories);
    result := RefuseRepeated(collected);
    if result.Some? {
      forall s ensures s in result.value <==> s in files || FileBelowAny(directories, s) {
        assert s in result.value <==> s in multiset(result.value);
      }
    }
  }

  lemma NoDirectories(files: seq<Source>)
    ensures !OtherBelowAny([]) && Gathered(files, []) == multiset(files)
  {
  }

  /** So one walk by itself is never refused for a repeated label. */
  lemma ProperWalkIsAccepted(d: Directory)
    requires Proper(d.nodes) && !OtherBelow(d.nodes)
    ensures !RepeatsIn(Gathered([], [d]))
  {
    FilesAreThosePathsLeadTo(d.name, d.nodes);
    WalkDoesNotRepeat(d.name, d.nodes);
    RepeatsAsMultiset(Files(d.name, d.nodes).value);
    assert [d][..0] == [] && Gathered([], []) == multiset{};
    assert Gathered([], [d]) == Found(d);
  }

  /** One more walk. */
  lemma CollectStep(files: seq<Source>, directories: seq<Directory>, i: nat)
    requires i < |directories|
    ensures var d := directories[i];
            && (OtherBelowAny(directories[..i + 1]) <==> OtherBelowAny(directories[..i]) || Files(d.name, d.nodes).None?)
            && (Files(d.name, d.nodes).None? ==> OtherBelowAny(directories))
            && Gathered(files, directories[..i + 1]) == Gathered(files, directories[..i]) + Found(d)
  {
    var d := directories[i];
    FilesAreThosePathsLeadTo(d.name, d.nodes);
    BelowLastOrOthers(directories[..i], d);
    assert directories[..i + 1] == directories[..i] + [d] && directories[..i + 1][..i] == directories[..i];
    assert d in directories;
    hide OtherBelow;
    hide FileBelow;
  }

  /** The sort and the check of neighbours. */
  method RefuseRepeated(collected: seq<Source>) returns (result: Option<seq<Source>>)
    ensures result.None? <==> Repeats(collected)
    ensures result.Some? ==> Ascending(result.value) && multiset(result.value) == multiset(collected)
  {
    var sorted := SortByLabel(collected);
    SortSorts(collected);
    RepeatsAreAdjacent(sorted);
    var index := 1;
    while index < |sorted|
      invariant 1 <= index
      invariant forall k | 1 <= k < index && k < |sorted| :: sorted[k - 1].name != sorted[k].name
    {
      if sorted[index - 1].name == sorted[index].name {
        return None;
      }
      index := index + 1;
    }
    return Some(sorted);
  }

  // --------------------------------------------------------------------- framing

  /** Every carriage return and line feed pair becomes a line feed. */
  function NormaliseLines(text: seq<Scalar>): seq<Scalar>
    decreases |text|
  {
    if text == [] then []
    else if |text| > 1 && text[0] == 13 && text[1] == 10 then [10] + NormaliseLines(text[2..])
    else [text[0]] + NormaliseLines(text[1..])
  }

  predicate PairAt(text: seq<Scalar>, i: nat) {
    i + 1 < |text| && text[i] == 13 && text[i + 1] == 10
  }

  predicate HasNoPair(text: seq<Scalar>) {
    forall i: nat | i < |text| :: !PairAt(text, i)
  }

  /** A text without a carriage return and line feed pair is kept as it is. */
  lemma {:induction false} OtherLinesAreKept(text: seq<Scalar>)
    requires HasNoPair(text)
    ensures NormaliseLines(text) == text
    decreases |text|
  {
    if text != [] {
      assert forall i: nat :: PairAt(text[1..], i) <==> PairAt(text, i + 1);
      OtherLinesAreKept(text[1..]);
      assert text == [text[0]] + text[1..];
      assert !PairAt(text, 0);
    }
  }

  /** Wherever there is such a pair, it becomes a line feed, and the text before and after is normalised
      on its own. */
  lemma {:induction false} PairsBecomeLineFeeds(a: seq<Scalar>, b: seq<Scalar>)
    ensures NormaliseLines(a + [13, 10] + b) == NormaliseLines(a) + [10] + NormaliseLines(b)
    decreases |a|
  {
    var text := a + [13, 10] + b;
    if a == [] {
      assert text[2..] == b;
    } else if |a| > 1 && a[0] == 13 && a[1] == 10 {
      assert text[2..] == a[2..] + [13, 10] + b;
      PairsBecomeLineFeeds(a[2..], b);
    } else {
      assert text[1..] == a[1..] + [13, 10] + b;
      assert |a| == 1 ==> text[1] == 13;
      PairsBecomeLineFeeds(a[1..], b);
    }
  }

  function Decimal(n: nat): Bytes {
    if n < 10 then [48 + n] else Decimal(n / 10) + [48 + n % 10]
  }

  function DecimalValue(s: Bytes): int {
    if s == [] then 0 else DecimalValue(s[..|s| - 1]) * 10 + (s[|s| - 1] as int - 48)
  }

  lemma {:induction false} DecimalRoundTrip(n: nat)
    ensures DecimalValue(Decimal(n)) == n && 0 !in Decimal(n)
  {
    if n >= 10 {
      DecimalRoundTrip(n / 10);
      assert Decimal(n)[..|Decimal(n)| - 1] == Decimal(n / 10);
    } else {
      assert Decimal(n)[..0] == [];
    }
  }

  /** Text as Node encodes it: a lone surrogate becomes U+FFFD. */
  function LossyText(units: seq<Unit>): seq<Scalar>
    decreases |units|
  {
    if units == [] then []
    else
      match DecodeUnit(units)
      case None => [0xFFFD] + LossyText(units[1..])
      case Some((c, n)) => [c] + LossyText(units[n..])
  }

  lemma {:induction false} WellFormedIsKept(units: seq<Unit>)
    requires WellFormedUtf16(units)
    ensures LossyText(units) == DecodeUtf16(units).value
    decreases |units|
  {
    if units != [] {
      WellFormedIsKept(units[DecodeUnit(units).value.1..]);
    }
  }

  function LabelBytes(name: seq<Unit>): Bytes {
    EncodeUtf8(LossyText(name))
  }

  function Contents(source: Source): Bytes {
    EncodeUtf8(NormaliseLines(source.text))
  }

  /** A label, a length and that many bytes, each ended by a zero byte. */
  function Framed(head: Bytes, length: Bytes, contents: Bytes): Bytes {
    head + [0] + length + [0] + contents + [0]
  }

  function Frame(source: Source): Bytes {
    Framed(LabelBytes(source.name), Decimal(|Contents(source)|), Contents(source))
  }

  /** What is fed to the hash. */
  function Stream(sources: seq<Source>): Bytes {
    if sources == [] then [] else Frame(sources[0]) + Stream(sources[1..])
  }

  lemma {:induction false} StreamAppend(sources: seq<Source>, source: Source)
    ensures Stream(sources + [source]) == Stream(sources) + Frame(source)
  {
    if sources == [] {
      assert sources + [source] == [source];
    } else {
      assert (sources + [source])[1..] == sources[1..] + [source];
      StreamAppend(sources[1..], source);
    }
  }

  /** The six updates of the digest for one source. */
  method Feed(before: Bytes, head: Bytes, length: Bytes, contents: Bytes) returns (fed: Bytes)
    ensures fed == before + Framed(head, length, contents)
  {
    fed := before + head;
    fed := fed + [0];
    fed := fed + length;
    assert fed == before + (head + [0] + length);
    fed := fed + [0];
    fed := fed + contents;
    fed := fed + [0];
  }

  method SourceFingerprint(sources: seq<Source>) returns (fed: Bytes)
    ensures fed == Stream(sources)
  {
    fed := [];
    for i := 0 to |sources|
      invariant fed == Stream(sources[..i])
    {
      var contents := Contents(sources[i]);
      fed := Feed(fed, LabelBytes(sources[i].name), Decimal(|contents|), contents);
      assert sources[..i + 1] == sources[..i] + [sources[i]];
      StreamAppend(sources[..i], sources[i]);
    }
    assert sources[..|sources|] == sources;
  }

  predicate NulFree(name: seq<Unit>) {
    0 !in name
  }

  /** Well-formed UTF-16 without NUL. */
  predicate Plain(name: seq<Unit>) {
    WellFormedUtf16(name) && NulFree(name)
  }

  lemma {:induction false} EncodedNul(text: seq<Scalar>)
    requires 0 !in text
    ensures 0 !in EncodeUtf8(text)
  {
    if text != [] {
      EncodedNul(text[1..]);
      assert text[0] != 0;
      assert 0 !in EncodeChar(text[0]);
    }
  }

  lemma {:induction false} LossyNul(units: seq<Unit>)
    requires NulFree(units)
    ensures 0 !in LossyText(units)
    decreases |units|
  {
    if units != [] {
      var n := if DecodeUnit(units).Some? then DecodeUnit(units).value.1 else 1;
      assert units[0] != 0;
      assert forall u | u in units[n..] :: u in units;
      LossyNul(units[n..]);
    }
  }

  lemma LabelHasNoNul(name: seq<Unit>)
    requires NulFree(name)
    ensures 0 !in LabelBytes(name)
  {
    LossyNul(name);
    EncodedNul(LossyText(name));
  }

  /** The first zero byte ends what comes before it. */
  lemma {:induction false} SplitAtNul(a: Bytes, rest: Bytes, b: Bytes, more: Bytes)
    requires 0 !in a && 0 !in b && a + [0] + rest == b + [0] + more
    ensures a == b && rest == more
    decreases |a|
  {
    var x, y := a + [0] + rest, b + [0] + more;
    assert x[0] == (if a == [] then 0 else a[0]) && y[0] == (if b == [] then 0 else b[0]);
    assert a == [] <==> b == [];
    if a == [] {
      assert rest == x[1..] && more == y[1..];
    } else {
      assert x[1..] == a[1..] + [0] + rest && y[1..] == b[1..] + [0] + more;
      SplitAtNul(a[1..], rest, b[1..], more);
      assert a == [a[0]] + a[1..] && b == [b[0]] + b[1..];
    }
  }

  lemma SplitAtLength(a: Bytes, rest: Bytes, b: Bytes, more: Bytes)
    requires |a| == |b| && a + [0] + rest == b + [0] + more
    ensures a == b && rest == more
  {
    var x, y := a + [0] + rest, b + [0] + more;
    assert a == x[..|a|] && b == y[..|b|];
    assert rest == x[|a| + 1..] && more == y[|b| + 1..];
  }

  lemma FramedParts(head: Bytes, length: Bytes, contents: Bytes, rest: Bytes)
    ensures Framed(head, length, contents) + rest == head + [0] + (length + [0] + (contents + [0] + rest))
  {
  }

  /** Two framed triples with the same bytes are the same, given that lengths are told by their text. */
  lemma FramedSplit(h: Bytes, l: Bytes, c: Bytes, rest: Bytes, h': Bytes, l': Bytes, c': Bytes, more: Bytes)
    requires 0 !in h && 0 !in h' && 0 !in l && 0 !in l' && (l == l' ==> |c| == |c'|)
    requires Framed(h, l, c) + rest == Framed(h', l', c') + more
    ensures h == h' && c == c' && rest == more
  {
    FramedParts(h, l, c, rest);
    FramedParts(h', l', c', more);
    SplitAtNul(h, l + [0] + (c + [0] + rest), h', l' + [0] + (c' + [0] + more));
    SplitAtNul(l, c + [0] + rest, l', c' + [0] + more);
    SplitAtLength(c, rest, c', more);
  }

  lemma FramesSplit(x: Source, rest: Bytes, y: Source, more: Bytes)
    requires NulFree(x.name) && NulFree(y.name) && Frame(x) + rest == Frame(y) + more
    ensures LabelBytes(x.name) == LabelBytes(y.name) && NormaliseLines(x.text) == NormaliseLines(y.text) && rest == more
  {
    var c, d := Contents(x), Contents(y);
    LabelHasNoNul(x.name);
    LabelHasNoNul(y.name);
    DecimalRoundTrip(|c|);
    DecimalRoundTrip(|d|);
    FramedSplit(LabelBytes(x.name), Decimal(|c|), c, rest, LabelBytes(y.name), Decimal(|d|), d, more);
    Utf8RoundTrip(NormaliseLines(x.text));
    Utf8RoundTrip(NormaliseLines(y.text));
  }

  /** What the hash can tell: label bytes and line-normalised texts, in order. */
  function Spelling(sources: seq<Source>): seq<(Bytes, seq<Scalar>)> {
    if sources == [] then [] else [(LabelBytes(sources[0].name), NormaliseLines(sources[0].text))] + Spelling(sources[1..])
  }

  /** The stream can be read in one way only: two lists of sources feed the hash the same bytes exactly
      when they agree on the bytes of every label and on every normalised text, in order. */
  lemma {:induction false} StreamDeterminesSources(a: seq<Source>, b: seq<Source>)
    requires forall s | s in a + b :: NulFree(s.name)
    ensures Stream(a) == Stream(b) <==> Spelling(a) == Spelling(b)
    decreases |a|
  {
    if a != [] && b != [] {
      assert a[0] in a + b && b[0] in a + b;
      assert forall s | s in a[1..] + b[1..] :: s in a + b;
      StreamDeterminesSources(a[1..], b[1..]);
      if Stream(a) == Stream(b) {
        FramesSplit(a[0], Stream(a[1..]), b[0], Stream(b[1..]));
      }
      if Spelling(a) == Spelling(b) {
        assert Spelling(a)[0] == Spelling(b)[0] && Spelling(a)[1..] == Spelling(a[1..]) && Spelling(b)[1..] == Spelling(b[1..]);
      }
    }
  }

  /** Labels themselves and line-normalised texts, in order. */
  function Summary(sources: seq<Source>): seq<(seq<Unit>, seq<Scalar>)> {
    if sources == [] then [] else [(sources[0].name, NormaliseLines(sources[0].text))] + Summary(sources[1..])
  }

  lemma PlainLabelsAreSpelled(x: seq<Unit>, y: seq<Unit>)
    requires Plain(x) && Plain(y) && LabelBytes(x) == LabelBytes(y)
    ensures x == y
  {
    WellFormedIsKept(x);
    WellFormedIsKept(y);
    TranscodeInjective(x, y);
  }

  lemma {:induction false} SpellingDeterminesLabels(a: seq<Source>, b: seq<Source>)
    requires forall s | s in a + b :: Plain(s.name)
    ensures Spelling(a) == Spelling(b) <==> Summary(a) == Summary(b)
    decreases |a|
  {
    if a != [] && b != [] {
      assert a[0] in a + b && b[0] in a + b;
      assert forall s | s in a[1..] + b[1..] :: s in a + b;
      SpellingDeterminesLabels(a[1..], b[1..]);
      if Spelling(a) == Spelling(b) {
        assert Spelling(a)[0] == Spelling(b)[0] && Spelling(a)[1..] == Spelling(a[1..]) && Spelling(b)[1..] == Spelling(b[1..]);
        PlainLabelsAreSpelled(a[0].name, b[0].name);
      }
      if Summary(a) == Summary(b) {
        assert Summary(a)[0] == Summary(b)[0] && Summary(a)[1..] == Summary(a[1..]) && Summary(b)[1..] == Summary(b[1..]);
      }
    }
  }

  /** For well-formed labels the stream determines the labels themselves. */
  lemma StreamDeterminesLabels(a: seq<Source>, b: seq<Source>)
    requires forall s | s in a + b :: Plain(s.name)
    ensures Stream(a) == Stream(b) <==> Summary(a) == Summary(b)
  {
    StreamDeterminesSources(a, b);
    SpellingDeterminesLabels(a, b);
  }

  lemma {:induction false} SummaryOfKeptTexts(a: seq<Source>, b: seq<Source>)
    requires (forall s | s in a + b :: HasNoPair(s.text)) && Summary(a) == Summary(b)
    ensures a == b
    decreases |a|
  {
    if a != [] && b != [] {
      assert a[0] in a + b && b[0] in a + b;
      assert forall s | s in a[1..] + b[1..] :: s in a + b;
      OtherLinesAreKept(a[0].text);
      OtherLinesAreKept(b[0].text);
      assert Summary(a)[0] == Summary(b)[0] && Summary(a)[1..] == Summary(a[1..]) && Summary(b)[1..] == Summary(b[1..]);
      SummaryOfKeptTexts(a[1..], b[1..]);
      assert a == [a[0]] + a[1..] && b == [b[0]] + b[1..];
    }
  }

  /** For well-formed labels and texts without carriage return and line feed pairs the stream determines
      the sources: whatever is edited in any of them, other bytes are hashed. */
  lemma EditsChangeTheStream(a: seq<Source>, b: seq<Source>)
    requires forall s | s in a + b :: Plain(s.name) && HasNoPair(s.text)
    ensures Stream(a) == Stream(b) <==> a == b
  {
    StreamDeterminesLabels(a, b);
    if Stream(a) == Stream(b) {
      SummaryOfKeptTexts(a, b);
    }
  }

  /** Without that, two labels can be spelled alike: a lone surrogate is spelled as U+FFFD. */
  lemma LoneSurrogatesCollide(text: seq<Scalar>)
    ensures var x, y := Source([0xD800], text), Source([0xFFFD], text);
            NulFree(x.name) && NulFree(y.name) && Stream([x]) == Stream([y]) && Summary([x]) != Summary([y])
  {
    var x, y := Source([0xD800], text), Source([0xFFFD], text);
    assert LossyText([]) == [];
    assert LossyText(x.name) == [0xFFFD] && LossyText(y.name) == [0xFFFD];
    assert Frame(x) == Frame(y);
    assert Summary([x])[0].0 != Summary([y])[0].0;
  }

  /** A label with a zero byte can pass for the end of one source and the start of the next. */
  lemma NulLabelsCollide(a: seq<Unit>, b: seq<Unit>)
    requires Ascii(a) && Ascii(b)
    ensures var one := [Source(a + [0, 0x30, 0, 0] + b, [])];
            var two := [Source(a, []), Source(b, [])];
            Stream(one) == Stream(two) && Summary(one) != Summary(two)
  {
    var x, y, z := Source(a + [0, 0x30, 0, 0] + b, []), Source(a, []), Source(b, []);
    EmptyFile(x.name);
    EmptyFile(a);
    EmptyFile(b);
    StreamAppend([], x);
    StreamAppend([], y);
    StreamAppend([y], z);
    assert [] + [x] == [x] && [] + [y] == [y] && [y] + [z] == [y, z];
    SummaryLength([x]);
    SummaryLength([y, z]);
  }

  lemma {:induction false} SummaryLength(sources: seq<Source>)
    ensures |Summary(sources)| == |sources|
  {
    if sources != [] {
      SummaryLength(sources[1..]);
    }
  }

  predicate Ascii(name: seq<int>) {
    forall i | 0 <= i < |name| :: name[i] < 0x80
  }

  /** What is hashed for a plain ASCII file, byte by byte. */
  lemma AsciiFile(name: seq<Unit>, text: seq<Scalar>)
    requires Ascii(name) && Ascii(text) && HasNoPair(text)
    ensures Frame(Source(name, text)) == name + [0] + Decimal(|text|) + [0] + text + [0]
  {
    AsciiLabel(name);
    OtherLinesAreKept(text);
    AsciiText(text);
    hide EncodeUtf8;
    hide LossyText;
    hide Decimal;
    hide NormaliseLines;
  }

  lemma DecimalDigits()
    ensures Decimal(0) == [0x30] && Decimal(1205) == [0x31, 0x32, 0x30, 0x35]
  {
    assert Decimal(1) == [0x31];
    assert Decimal(12) == [0x31, 0x32];
    assert Decimal(120) == [0x31, 0x32, 0x30];
  }

  lemma {:induction false} AsciiText(text: seq<Scalar>)
    requires Ascii(text)
    ensures EncodeUtf8(text) == text
  {
    if text != [] {
      AsciiText(text[1..]);
      assert EncodeChar(text[0]) == [text[0]];
      assert text == [text[0]] + text[1..];
    }
  }

  lemma EmptyFile(name: seq<Unit>)
    requires Ascii(name)
    ensures Frame(Source(name, [])) == name + [0, 0x30, 0, 0]
  {
    AsciiLabel(name);
    assert Contents(Source(name, [])) == [];
    assert Decimal(0) == [0x30];
  }

  lemma {:induction false} AsciiLabel(name: seq<Unit>)
    requires Ascii(name)
    ensures WellFormedUtf16(name) && LabelBytes(name) == name
    decreases |name|
  {
    if name != [] {
      AsciiLabel(name[1..]);
      assert DecodeUnit(name) == Some((name[0], 1));
      assert EncodeChar(name[0]) == [name[0]];
      assert name == [name[0]] + name[1..];
    }
  }
}
