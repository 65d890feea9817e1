/** The file namespace over capsules: a map from full paths that has to stay a tree. */
module Namespace {
  import opened Types
  import opened Paths

  datatype Node = File(cid: CapsuleId, size: nat) | Directory

  datatype Refusal = AtRoot | NoSuchPath | IsDirectory | NotDirectory | FileInPath | NotEmpty | StoreFailed

  datatype Answer<+T> = Yes(value: T) | No(why: Refusal)

  type Nodes = map<string, Node>

  predicate IsDir(nodes: Nodes, path: string) { path in nodes && nodes[path].Directory? }

  /** The root is a directory, every path is canonical, and the parent of every other path is a directory. */
  predicate Tree(nodes: Nodes) {
    && IsDir(nodes, "/")
    && forall key :: key in nodes ==> InTree(nodes, key)
  }

  predicate InTree(nodes: Nodes, key: string) {
    Canonical(key) && (Normal(key) != [] ==> IsDir(nodes, Print(Parent(Normal(key)))))
  }

  function Parent(cs: seq<string>): seq<string>
    requires cs != []
  {
    cs[..|cs| - 1]
  }

  /** `key` names an entry of directory `dir`. */
  predicate ChildOf(key: string, dir: seq<string>) { Normal(key) != [] && Parent(Normal(key)) == dir }

  predicate HasChild(nodes: Nodes, dir: seq<string>) { exists key :: key in nodes && ChildOf(key, dir) }

  /** Every ancestor of a path in the tree is a directory in it; so files have no descendants. */
  lemma {:induction false} AncestorsAreDirectories(nodes: Nodes, cs: seq<string>, n: nat)
    requires Tree(nodes) && Names(cs) && Print(cs) in nodes && n < |cs|
    ensures IsDir(nodes, Print(cs[..n]))
    decreases |cs|
  {
    hide Print, Normal;
    ParsePrinted(cs);
    assert InTree(nodes, Print(cs));
    if n < |cs| - 1 {
      AncestorsAreDirectories(nodes, Parent(cs), n);
      assert Parent(cs)[..n] == cs[..n];
    }
  }

  lemma FilesHaveNoDescendants(nodes: Nodes, file: seq<string>, cs: seq<string>)
    requires Tree(nodes) && Names(file) && Names(cs) && Print(file) in nodes && nodes[Print(file)].File? && Below(cs, file)
    ensures Print(cs) !in nodes
  {
    if Print(cs) in nodes { AncestorsAreDirectories(nodes, cs, |file|); }
  }

  // ---------------------------------------------------------------- making directories

  /** The paths of the first `n` ancestors-or-self of `cs`. */
  function Chain(cs: seq<string>, n: nat): set<string>
    requires n <= |cs|
  {
    set i | 0 <= i <= n :: Print(cs[..i])
  }

  /** `nodes` with the missing directories of the chain. */
  function WithDirs(nodes: Nodes, cs: seq<string>, n: nat): Nodes
    requires n <= |cs|
  {
    map key | key in nodes.Keys + Chain(cs, n) :: if key in nodes then nodes[key] else Directory
  }

  /** No file stands on the way. */
  predicate Passable(nodes: Nodes, cs: seq<string>, n: nat)
    requires n <= |cs|
  {
    forall i :: 0 <= i <= n && Print(cs[..i]) in nodes ==> nodes[Print(cs[..i])].Directory?
  }

  lemma WithDirsStart(nodes: Nodes, cs: seq<string>)
    requires IsDir(nodes, "/")
    ensures WithDirs(nodes, cs, 0) == nodes && Passable(nodes, cs, 0)
  {
    assert cs[..0] == [];
    assert Chain(cs, 0) == {"/"};
  }

  lemma WithDirsStep(nodes: Nodes, cs: seq<string>, n: nat)
    requires n < |cs| && Parsed(cs) && Passable(nodes, cs, n)
    ensures var key := Print(cs[..n + 1]); var mid := WithDirs(nodes, cs, n);
            && (key in mid <==> key in nodes)
            && (key in nodes ==> mid[key] == nodes[key])
            && (key !in nodes || nodes[key].Directory? ==>
                  Passable(nodes, cs, n + 1) && WithDirs(nodes, cs, n + 1) == if key in nodes then mid else mid[key := Directory])
  {
    hide Print, Normal;
    var key := Print(cs[..n + 1]);
    assert Chain(cs, n + 1) == Chain(cs, n) + {key};
    forall i | 0 <= i <= n ensures Print(cs[..i]) != key { PrintLonger(cs, i, n + 1); }
  }

  /** A file that stands on the way stands below directories only: nothing has been inserted before it. */
  lemma BlockedInsertsNothing(nodes: Nodes, cs: seq<string>, n: nat)
    requires Tree(nodes) && Parsed(cs) && n < |cs| && Print(cs[..n + 1]) in nodes
    ensures WithDirs(nodes, cs, n) == nodes
    ensures nodes[Print(cs[..n + 1])].File? ==> !Passable(nodes, cs, |cs|)
  {
    hide Print, Normal, Pieces, Parsed;
    var pieces := Pieces(cs[..n + 1]);
    CanonicalPrefix(nodes, cs, n + 1);
    PrintPieces(cs[..n + 1]);
    forall i | 0 <= i <= n ensures Print(cs[..i]) in nodes {
      PiecesPrefix(cs, i, n + 1);
      PrintPieces(cs[..i]);
      AncestorsAreDirectories(nodes, pieces, |Pieces(cs[..i])|);
      assert pieces[..|Pieces(cs[..i])|] == Pieces(cs[..i]);
    }
  }

  lemma CanonicalPrefix(nodes: Nodes, cs: seq<string>, n: nat)
    requires Tree(nodes) && Parsed(cs) && n <= |cs| && Print(cs[..n]) in nodes
    ensures Names(Pieces(cs[..n])) && Normal(Print(cs[..n])) == Pieces(cs[..n])
  {
    hide Print, Normal, Pieces;
    assert InTree(nodes, Print(cs[..n]));
    CanonicalIff(cs[..n]);
  }

  /** A component that prints as several: they all are names, and the directory that they make of the last one's parent
      is there. */
  predicate Grounded(nodes: Nodes, before: seq<string>, c: string) {
    '/' in c ==> var ps := Parts(c); Names(ps) && IsDir(nodes, Print(before + ps[..|ps| - 1]))
  }

  predicate AllGrounded(nodes: Nodes, cs: seq<string>) {
    forall i :: 0 <= i < |cs| ==> Grounded(nodes, cs[..i], cs[i])
  }

  /** Making the missing directories keeps the tree exactly if every component is grounded; a plain name always is. */
  lemma WithDirsTreeIff(nodes: Nodes, cs: seq<string>)
    requires Tree(nodes) && Parsed(cs) && Passable(nodes, cs, |cs|)
    ensures Tree(WithDirs(nodes, cs, |cs|)) <==> AllGrounded(nodes, cs)
    ensures IsDir(WithDirs(nodes, cs, |cs|), Print(cs))
  {
    hide Print, Normal, Parsed, WithDirs, Passable, Grounded, Tree;
    DirsOnChain(nodes, cs);
    assert cs[..|cs|] == cs;
    if AllGrounded(nodes, cs) { GroundedTree(nodes, cs); }
    if Tree(WithDirs(nodes, cs, |cs|)) {
      forall i | 0 <= i < |cs| ensures Grounded(nodes, cs[..i], cs[i]) { TreeGrounded(nodes, cs, i); }
    }
  }

  lemma GroundedTree(nodes: Nodes, cs: seq<string>)
    requires Tree(nodes) && Parsed(cs) && Passable(nodes, cs, |cs|) && AllGrounded(nodes, cs)
    ensures Tree(WithDirs(nodes, cs, |cs|))
  {
    hide Print, Normal, Parsed, Passable, AllGrounded, InTree;
    RootIsDir(nodes);
    var nodes' := WithDirs(nodes, cs, |cs|);
    forall key | key in nodes' ensures InTree(nodes', key) {
      if key in nodes { OldInTree(nodes, nodes', key); } else { MadeInTree(nodes, cs, key); }
    }
  }

  lemma RootFirst(cs: seq<string>)
    ensures Print(cs[..0]) == "/"
  {
    PrintRoot();
    assert cs[..0] == [];
  }

  lemma OldInTree(nodes: Nodes, nodes': Nodes, key: string)
    requires InTree(nodes, key) && forall k :: IsDir(nodes, k) ==> IsDir(nodes', k)
    ensures InTree(nodes', key)
  {
    hide Print, Normal;
  }

  lemma MadeInTree(nodes: Nodes, cs: seq<string>, key: string)
    requires IsDir(nodes, "/") && Parsed(cs) && Passable(nodes, cs, |cs|) && AllGrounded(nodes, cs)
    requires key in Chain(cs, |cs|) && key !in nodes
    ensures InTree(WithDirs(nodes, cs, |cs|), key)
  {
    hide Print, Normal, Parsed, Passable, AllGrounded, InTree, WithDirs;
    var i :| 0 <= i <= |cs| && key == Print(cs[..i]);
    RootFirst(cs);
    NewInTree(nodes, cs, i - 1);
  }

  lemma DirsOnChain(nodes: Nodes, cs: seq<string>)
    requires Passable(nodes, cs, |cs|)
    ensures forall i :: 0 <= i <= |cs| ==> IsDir(WithDirs(nodes, cs, |cs|), Print(cs[..i]))
  {
    hide Print;
    forall i | 0 <= i <= |cs| ensures IsDir(WithDirs(nodes, cs, |cs|), Print(cs[..i])) {
      assert Print(cs[..i]) in Chain(cs, |cs|);
    }
  }

  lemma {:induction false} GroundedNames(nodes: Nodes, cs: seq<string>, n: nat)
    requires Parsed(cs) && AllGrounded(nodes, cs) && n <= |cs|
    ensures Names(Pieces(cs[..n]))
  {
    hide Print, Normal, Parts, Pieces;
    if n == 0 {
      NoPieces();
    } else {
      GroundedNames(nodes, cs, n - 1);
      assert cs[..n] == cs[..n - 1] + [cs[n - 1]];
      PiecesSnoc(cs[..n - 1], cs[n - 1]);
      PartsOne(cs[n - 1]);
      assert Grounded(nodes, cs[..n - 1], cs[n - 1]);
    }
  }

  /** Where the printed path of one component more stands: in the directory that all but its last piece name. */
  lemma PlaceOf(cs: seq<string>, n: nat)
    requires Parsed(cs) && n < |cs| && Names(Pieces(cs[..n + 1]))
    ensures var key := Print(cs[..n + 1]); var ps := Parts(cs[n]);
            && Names(ps) && Canonical(key) && Normal(key) != []
            && Print(Parent(Normal(key))) == Print(cs[..n] + ps[..|ps| - 1])
  {
    hide Print, Normal, Parts, Pieces;
    var before, ps := cs[..n], Parts(cs[n]);
    assert cs[..n + 1] == before + [cs[n]];
    PiecesSnoc(before, cs[n]);
    CanonicalIff(cs[..n + 1]);
    var all := Pieces(before) + ps;
    forall i | 0 <= i < |ps| ensures Name(ps[i]) { assert ps[i] == all[|Pieces(before)| + i]; }
    assert Parent(all) == Pieces(before) + ps[..|ps| - 1];
    PiecesPrinted(before, ps[..|ps| - 1]);
  }

  lemma NewInTree(nodes: Nodes, cs: seq<string>, n: nat)
    requires Parsed(cs) && AllGrounded(nodes, cs) && Passable(nodes, cs, |cs|) && n < |cs|
    ensures InTree(WithDirs(nodes, cs, |cs|), Print(cs[..n + 1]))
  {
    hide Print, Normal, Parts, Pieces, Parsed;
    GroundedNames(nodes, cs, n + 1);
    PlaceOf(cs, n);
    DirsOnChain(nodes, cs);
    PartsOne(cs[n]);
    assert Grounded(nodes, cs[..n], cs[n]);
    if '/' !in cs[n] {
      assert Parts(cs[n])[..0] == [] && cs[..n] + [] == cs[..n];
    }
  }

  lemma TreeGrounded(nodes: Nodes, cs: seq<string>, n: nat)
    requires Parsed(cs) && Passable(nodes, cs, |cs|) && Tree(WithDirs(nodes, cs, |cs|)) && n < |cs|
    ensures Grounded(nodes, cs[..n], cs[n])
  {
    hide Print, Normal, Parts, Pieces, Parsed;
    var nodes' := WithDirs(nodes, cs, |cs|);
    DirsOnChain(nodes, cs);
    CanonicalPrefix(nodes', cs, n + 1);
    PlaceOf(cs, n);
    assert InTree(nodes', Print(cs[..n + 1]));
    if '/' in cs[n] {
      var ps := Parts(cs[n]);
      PartsOne(cs[n]);
      Between(cs, n);
      assert Print(cs[..n] + ps[..|ps| - 1]) !in Chain(cs, |cs|);
    }
  }

  /** The directory inside a component is on nobody's way: its path is longer than all before and shorter than all
      after. */
  lemma Between(cs: seq<string>, n: nat)
    requires Parsed(cs) && n < |cs| && '/' in cs[n] && Names(Parts(cs[n]))
    ensures var ps := Parts(cs[n]); forall i :: 0 <= i <= |cs| ==> Print(cs[..i]) != Print(cs[..n] + ps[..|ps| - 1])
  {
    hide Print, Normal, Parts, Pieces;
    var ps := Parts(cs[n]);
    PartsOne(cs[n]);
    var inner := cs[..n] + ps;
    assert Parsed(inner);
    PrintLonger(inner, n, |inner| - 1);
    PrintLonger(inner, |inner| - 1, |inner|);
    assert inner[..n] == cs[..n] && inner[..|inner| - 1] == cs[..n] + ps[..|ps| - 1] && inner[..|inner|] == inner;
    assert cs[..n + 1] == cs[..n] + [cs[n]];
    PiecesSnoc(cs[..n], cs[n]);
    PrintPieces(cs[..n + 1]);
    PiecesPrinted(cs[..n], ps);
    forall i | 0 <= i <= |cs| ensures Print(cs[..i]) != Print(cs[..n] + ps[..|ps| - 1]) {
      if i < n { PrintLonger(cs, i, n); }
      if i > n + 1 { PrintLonger(cs, n + 1, i); }
    }
  }

  /** Plain names are grounded. */
  lemma NamesGrounded(nodes: Nodes, cs: seq<string>)
    requires Names(cs)
    ensures Parsed(cs) && AllGrounded(nodes, cs)
  {
  }

  lemma InsertTree(nodes: Nodes, cs: seq<string>, node: Node)
    requires Tree(nodes) && Names(cs) && cs != [] && IsDir(nodes, Print(Parent(cs))) && !HasChild(nodes, cs)
    ensures Tree(nodes[Print(cs) := node])
  {
    hide Print, Normal;
    ParsePrinted(cs);
    ParsePrinted([]);
    var nodes' := nodes[Print(cs) := node];
    assert Print([]) == "/" by { PrintRoot(); }
    assert Print(Parent(cs)) != Print(cs) by { ParsePrinted(Parent(cs)); }
    forall key | key in nodes' ensures InTree(nodes', key) {
      if key != Print(cs) {
        assert InTree(nodes, key);
        if Normal(key) != [] && Print(Parent(Normal(key))) == Print(cs) {
          ParsePrinted(Parent(Normal(key)));
        }
      }
    }
  }

  /** The scan for a deeper path is exact: it finds none if and only if nothing has this path as its parent. */
  lemma EmptyIff(nodes: Nodes, cs: seq<string>)
    requires Tree(nodes) && Names(cs) && cs != []
    ensures (exists key :: key in nodes && StartsWith(key, Print(cs) + "/")) <==> HasChild(nodes, cs)
  {
    hide Print, Normal;
    if key :| key in nodes && StartsWith(key, Print(cs) + "/") {
      var k := Normal(key);
      assert InTree(nodes, key);
      LongerDiffers(key, Print(cs));
      PrefixIsBelow(k, cs);
      var child := k[..|cs| + 1];
      if |k| > |cs| + 1 { AncestorsAreDirectories(nodes, k, |cs| + 1); } else { assert child == k; }
      ParsePrinted(child);
      assert Parent(child) == cs;
      assert Print(child) in nodes && ChildOf(Print(child), cs);
    }
    if key :| key in nodes && ChildOf(key, cs) {
      assert InTree(nodes, key);
      PrefixIsBelow(Normal(key), cs);
    }
  }

  lemma LongerDiffers(key: string, path: string)
    requires StartsWith(key, path + "/")
    ensures key != path
  {
    assert |path + "/"| == |path| + 1;
  }

  lemma RemoveTree(nodes: Nodes, cs: seq<string>)
    requires Tree(nodes) && Names(cs) && cs != []
    requires !HasChild(nodes, cs)
    ensures Tree(nodes - {Print(cs)})
  {
    hide Print, Normal;
    ParsePrinted(cs);
    ParsePrinted([]);
    assert Print([]) == "/" by { PrintRoot(); }
    var nodes' := nodes - {Print(cs)};
    forall key | key in nodes' ensures InTree(nodes', key) {
      assert InTree(nodes, key);
      if Normal(key) != [] && Print(Parent(Normal(key))) == Print(cs) { ParsePrinted(Parent(Normal(key))); }
    }
  }

  /** A file has nobody below it, so it can always go. */
  lemma FileIsLeaf(nodes: Nodes, cs: seq<string>)
    requires Tree(nodes) && Names(cs) && Print(cs) in nodes && nodes[Print(cs)].File?
    ensures !HasChild(nodes, cs)
  {
    hide Print, Normal;
    forall key | key in nodes ensures !ChildOf(key, cs) {
      assert InTree(nodes, key);
    }
  }

  /** Whether a file can be put at a path so that the tree stays one: every piece is a name, and the last component is
      grounded. */
  predicate WriteGrounded(nodes: Nodes, cs: seq<string>)
    requires cs != []
  {
    Names(Pieces(cs)) && Grounded(nodes, Parent(cs), cs[|cs| - 1])
  }

  /** The file of a path goes below the directories of its parent as they are read off the printed parent. */
  function WithFile(nodes: Nodes, cs: seq<string>, node: Node): Nodes
    requires cs != []
  {
    var parent := Normal(ParentPath(cs));
    WithDirs(nodes, parent, |parent|)[Print(cs) := node]
  }

  /** No file stands on the way to the parent. */
  predicate ParentPassable(nodes: Nodes, cs: seq<string>)
    requires cs != []
  {
    var parent := Normal(ParentPath(cs));
    Passable(nodes, parent, |parent|)
  }

  lemma ParentParses(cs: seq<string>)
    requires Parsed(cs) && cs != []
    ensures Names(Normal(ParentPath(cs))) && (Names(Pieces(Parent(cs))) ==> Normal(ParentPath(cs)) == Pieces(Parent(cs)))
  {
    hide Print, Normal, Pieces;
    ParentIsPrint(cs);
    CanonicalIff(Parent(cs));
    forall c | c in Parent(cs) ensures '\\' !in c {
      var i :| 0 <= i < |Parent(cs)| && Parent(cs)[i] == c;
      assert cs[i] == c;
    }
    PrintChars(Parent(cs));
    NormalNames(ParentPath(cs));
  }

  lemma WithFileTreeIff(nodes: Nodes, cs: seq<string>, node: Node)
    requires Tree(nodes) && Parsed(cs) && cs != [] && node.File? && ParentPassable(nodes, cs)
    ensures Tree(WithFile(nodes, cs, node)) <==> WriteGrounded(nodes, cs) && !HasChild(nodes, Normal(Print(cs)))
    ensures var parent := Normal(ParentPath(cs)); var mid := WithDirs(nodes, parent, |parent|);
            (Print(cs) in mid <==> Print(cs) in nodes) && (Print(cs) in nodes ==> mid[Print(cs)] == nodes[Print(cs)])
  {
    hide Print, Normal, Parts, Pieces, Parsed, HasChild;
    var parent := Normal(ParentPath(cs));
    var mid := WithDirs(nodes, parent, |parent|);
    ParentParses(cs);
    NamesGrounded(nodes, parent);
    WithDirsTreeIff(nodes, parent);
    FileNotOnWay(cs);
    assert cs[..|cs|] == cs && cs[..|cs| - 1] == Parent(cs);
    if Names(Pieces(cs)) {
      PlaceOf(cs, |cs| - 1);
      PlaceIff(nodes, cs);
      InsertTreeIff(mid, cs, node);
      SameChildren(nodes, cs);
    } else {
      CanonicalIff(cs);
      assert !InTree(WithFile(nodes, cs, node), Print(cs));
    }
  }

  /** Making the parents of a path puts nothing below it. */
  lemma SameChildren(nodes: Nodes, cs: seq<string>)
    requires Parsed(cs) && cs != [] && Names(Pieces(cs))
    ensures var parent := Normal(ParentPath(cs)); var ks := Normal(Print(cs));
            HasChild(WithDirs(nodes, parent, |parent|), ks) <==> HasChild(nodes, ks)
  {
    hide Print, Normal, Parts, Pieces, Parsed;
    var parent, ks := Normal(ParentPath(cs)), Normal(Print(cs));
    var mid := WithDirs(nodes, parent, |parent|);
    ParentPieces(cs);
    ShorterParent(cs);
    if HasChild(mid, ks) {
      var key :| key in mid && ChildOf(key, ks);
      if key !in nodes {
        var i :| 0 <= i <= |parent| && key == Print(parent[..i]);
        ParsePrinted(parent[..i]);
      }
    }
    if HasChild(nodes, ks) {
      var key :| key in nodes && ChildOf(key, ks);
      assert key in mid;
    }
  }

  lemma ShorterParent(cs: seq<string>)
    requires Parsed(cs) && cs != [] && Names(Pieces(cs))
    ensures Names(Normal(ParentPath(cs))) && |Normal(ParentPath(cs))| < |Normal(Print(cs))|
  {
    hide Print, Normal, Parts, Pieces;
    var n := |cs| - 1;
    assert cs[..n + 1] == cs && cs[..n] == Parent(cs);
    PiecesPrefix(cs, n, n + 1);
    NamesPrefix(Pieces(Parent(cs)), Pieces(cs));
    ParentParses(cs);
    CanonicalIff(cs);
  }

  lemma FileNotOnWay(cs: seq<string>)
    requires Parsed(cs) && cs != []
    ensures var parent := Normal(ParentPath(cs)); Print(cs) !in Chain(parent, |parent|)
  {
    hide Print, Normal, Parts, Pieces;
    var parent := Normal(ParentPath(cs));
    ParentParses(cs);
    assert cs[..|cs|] == cs && cs[..|cs| - 1] == Parent(cs);
    forall i | 0 <= i <= |parent| ensures Print(parent[..i]) != Print(cs) {
      ParsePrinted(parent[..i]);
      if Print(parent[..i]) == Print(cs) {
        CanonicalIff(cs);
        PiecesPrefix(cs, |cs| - 1, |cs|);
        NamesPrefix(Pieces(Parent(cs)), Pieces(cs));
      }
    }
  }

  lemma NamesPrefix(a: seq<string>, b: seq<string>)
    requires a <= b && Names(b)
    ensures Names(a)
  {
    forall i | 0 <= i < |a| ensures Name(a[i]) { assert a[i] == b[i]; }
  }

  /** The directory that the file goes into is there after the walk exactly if the last component is grounded. */
  lemma PlaceIff(nodes: Nodes, cs: seq<string>)
    requires Tree(nodes) && Parsed(cs) && cs != [] && Names(Pieces(cs))
    requires var parent := Normal(ParentPath(cs)); Passable(nodes, parent, |parent|)
    ensures var parent := Normal(ParentPath(cs)); var ps := Parts(cs[|cs| - 1]);
            IsDir(WithDirs(nodes, parent, |parent|), Print(Parent(cs) + ps[..|ps| - 1])) <==> Grounded(nodes, Parent(cs), cs[|cs| - 1])
  {
    hide Print, Normal, Parts, Pieces, WithDirs, Passable;
    var n, parent, ps := |cs| - 1, Normal(ParentPath(cs)), Parts(cs[|cs| - 1]);
    ParentPieces(cs);
    DirsOnChain(nodes, parent);
    PartsOne(cs[n]);
    if '/' !in cs[n] {
      assert ps[..0] == [] && Parent(cs) + [] == Parent(cs) && parent[..|parent|] == parent;
    } else {
      InnerNotOnWay(cs, parent);
      OffChain(nodes, parent, Print(Parent(cs) + ps[..|ps| - 1]));
    }
  }

  lemma ParentPieces(cs: seq<string>)
    requires Parsed(cs) && cs != [] && Names(Pieces(cs))
    ensures var parent := Normal(ParentPath(cs)); Names(parent) && Print(parent) == Print(Parent(cs)) && Names(Parts(cs[|cs| - 1]))
  {
    hide Print, Normal, Parts, Pieces;
    var n := |cs| - 1;
    assert cs[..n + 1] == cs && cs[..n] == Parent(cs);
    PiecesPrefix(cs, n, n + 1);
    NamesPrefix(Pieces(Parent(cs)), Pieces(cs));
    ParentParses(cs);
    PlaceOf(cs, n);
    PrintPieces(Parent(cs));
  }

  lemma OffChain(nodes: Nodes, cs: seq<string>, key: string)
    requires key !in Chain(cs, |cs|)
    ensures IsDir(WithDirs(nodes, cs, |cs|), key) <==> IsDir(nodes, key)
  {
    hide Print;
  }

  lemma InnerNotOnWay(cs: seq<string>, parent: seq<string>)
    requires Parsed(cs) && cs != [] && Names(Parts(cs[|cs| - 1])) && '/' in cs[|cs| - 1]
    requires Names(parent) && Print(parent) == Print(Parent(cs))
    ensures var ps := Parts(cs[|cs| - 1]); Print(Parent(cs) + ps[..|ps| - 1]) !in Chain(parent, |parent|)
  {
    hide Print, Parts;
    var n, ps := |cs| - 1, Parts(cs[|cs| - 1]);
    PartsOne(cs[n]);
    var inner := Parent(cs) + ps[..|ps| - 1];
    assert Parsed(inner) && inner[..n] == Parent(cs) && inner[..|inner|] == inner;
    PrintLonger(inner, n, |inner|);
    forall i | 0 <= i <= |parent| ensures Print(parent[..i]) != Print(inner) {
      assert parent[..|parent|] == parent;
      if i < |parent| { PrintLonger(parent, i, |parent|); }
    }
  }

  /** A file fits in exactly if its directory is there and nothing is below its path. */
  lemma InsertTreeIff(nodes: Nodes, cs: seq<string>, node: Node)
    requires Tree(nodes) && Canonical(Print(cs)) && Normal(Print(cs)) != [] && node.File?
    ensures var ks := Normal(Print(cs));
            Tree(nodes[Print(cs) := node]) <==> IsDir(nodes, Print(Parent(ks))) && !HasChild(nodes, ks)
  {
    hide Print, Normal;
    var ks := Normal(Print(cs));
    var nodes' := nodes[Print(cs) := node];
    ParsePrinted(Parent(ks));
    assert Print(Parent(ks)) != Print(cs);
    if IsDir(nodes, Print(Parent(ks))) && !HasChild(nodes, ks) { InsertTree(nodes, ks, node); }
    if Tree(nodes') {
      assert InTree(nodes', Print(cs));
      forall key | key in nodes ensures !ChildOf(key, ks) {
        assert InTree(nodes', key);
      }
    }
  }

  /** Only directories have something below them. */
  lemma NoDirectoryNoChild(nodes: Nodes, path: string)
    requires Tree(nodes) && Canonical(path) && !IsDir(nodes, path)
    ensures !HasChild(nodes, Normal(path))
  {
    hide Print, Normal;
    forall key | key in nodes ensures !ChildOf(key, Normal(path)) {
      assert InTree(nodes, key);
    }
  }

  // ---------------------------------------------------------------- the class

  /** `NfsView`'s namespace. Times are left out; the pipeline's part of a call is a parameter or a result. */
  class NfsView {
    var nodes: Nodes

    constructor ()
      ensures Tree(nodes) && nodes == map["/" := Directory]
    {
      nodes := map["/" := Directory];
      new;
      assert Print([]) == "/";
      ParsePrinted([]);
    }

    /** Walk down from the root; stop at a file. Nothing has been inserted if it stops. */
    method EnsureDirectory(cs: seq<string>) returns (ok: bool)
      requires Tree(nodes) && Parsed(cs)
      modifies this
      ensures ok == Passable(old(nodes), cs, |cs|)
      ensures nodes == if ok then WithDirs(old(nodes), cs, |cs|) else old(nodes)
      ensures ok ==> IsDir(nodes, Print(cs)) && (Tree(nodes) <==> AllGrounded(old(nodes), cs))
    {
      hide Tree, Print, Normal, WithDirs, Parsed, Passable, AllGrounded;
      WithDirsStart(nodes, cs) by { RootIsDir(nodes); }
      for n := 0 to |cs|
        invariant nodes == WithDirs(old(nodes), cs, n) && Passable(old(nodes), cs, n)
      {
        var key := Print(cs[..n + 1]);
        WithDirsStep(old(nodes), cs, n);
        if key in nodes {
          if nodes[key].File? {
            BlockedInsertsNothing(old(nodes), cs, n);
            return false;
          }
        } else {
          nodes := nodes[key := Directory];
        }
      }
      WithDirsTreeIff(old(nodes), cs);
      ok := true;
    }

    /** The namespace stays a tree exactly if the call is refused or every component is grounded. */
    method Mkdir(path: string) returns (r: Answer<()>)
      requires Tree(nodes)
      modifies this
      ensures var cs := Normal(path);
              && r == (if Passable(old(nodes), cs, |cs|) then Yes(()) else No(FileInPath))
              && nodes == (if r.Yes? then WithDirs(old(nodes), cs, |cs|) else old(nodes))
              && (Tree(nodes) <==> r.No? || AllGrounded(old(nodes), cs))
    {
      hide Tree, Passable, WithDirs, AllGrounded, Normal;
      NormalParsed(path);
      var cs := Normalize(path);
      var ok := EnsureDirectory(cs);
      r := if ok then Yes(()) else No(FileInPath);
    }

    /** `stored` is the capsule that the pipeline wrote for the data, if it could; the answer carries the capsule of the
        file that is replaced, for the pipeline to delete. The lock is given up between the first check and the
        insertion: `meanwhile` is what other calls have made of the namespace by then, any tree at all. A file in the way
        is noticed only after the capsule has been written: it is left behind. A directory that was made meanwhile is
        not noticed: the file takes its place. The namespace stays a tree exactly if the call is refused, or the path is
        grounded and nothing lies below it. */
    method WriteFile(path: string, size: nat, stored: Option<CapsuleId>, meanwhile: Nodes) returns (r: Answer<Option<CapsuleId>>)
      requires Tree(nodes) && Tree(meanwhile)
      modifies this
      ensures var cs := Normal(path);
              r.No? ==>
                && r.why == (if cs == [] then AtRoot else if IsDir(old(nodes), Print(cs)) then IsDirectory
                             else if stored.None? then StoreFailed else FileInPath)
                && nodes == if r.why == FileInPath then meanwhile else old(nodes)
      ensures var cs := Normal(path);
              r.Yes? == (cs != [] && !IsDir(old(nodes), Print(cs)) && stored.Some? && ParentPassable(meanwhile, cs))
      ensures var cs := Normal(path);
              r.Yes? ==>
                && nodes == WithFile(meanwhile, cs, File(stored.value, size))
                && r.value == if Print(cs) in meanwhile && meanwhile[Print(cs)].File? then Some(meanwhile[Print(cs)].cid) else None
      ensures var cs := Normal(path);
              Tree(nodes) <==> r.No? || (WriteGrounded(meanwhile, cs) && !HasChild(meanwhile, Normal(Print(cs))))
    {
      hide Tree, Print, Normal, WithDirs, Passable, Parsed, WriteGrounded, HasChild;
      NormalParsed(path);
      var cs := Normalize(path);
      if cs == [] { return No(AtRoot); }
      var parent := Normalize(ParentPath(cs));
      ParentParses(cs);
      var full := Print(cs);
      if full in nodes && nodes[full].Directory? { return No(IsDirectory); }
      if stored.None? { return No(StoreFailed); }
      nodes := meanwhile;
      NamesGrounded(nodes, parent);
      var ok := EnsureDirectory(parent);
      if !ok { return No(FileInPath); }
      WithFileTreeIff(meanwhile, cs, File(stored.value, size));
      r := Yes(if full in nodes && nodes[full].File? then Some(nodes[full].cid) else None);
      nodes := nodes[full := File(stored.value, size)];
    }

    /** `Yes` carries the capsule of a deleted file, for the pipeline to delete. */
    method Delete(path: string) returns (r: Answer<Option<CapsuleId>>)
      requires Tree(nodes)
      modifies this
      ensures Tree(nodes) && nodes == if r.Yes? then old(nodes) - {Print(Normal(path))} else old(nodes)
      ensures var cs := Normal(path); var full := Print(cs);
              r == if cs == [] then No(AtRoot)
                   else if full !in old(nodes) then No(NoSuchPath)
                   else if old(nodes)[full].File? then Yes(Some(old(nodes)[full].cid))
                   else if HasChild(old(nodes), Normal(full)) then No(NotEmpty) else Yes(None)
    {
      hide Tree, Print, Normal, HasChild, Names, Parsed, Pieces;
      NormalParsed(path);
      var cs := Normalize(path);
      if cs == [] { return No(AtRoot); }
      var full := Print(cs);
      if full !in nodes { return No(NoSuchPath); }
      ghost var ks := Pieces(cs);
      StoredPath(nodes, cs);
      match nodes[full] {
        case Directory =>
          EmptyIff(nodes, ks);
          if exists key :: key in nodes && StartsWith(key, full + "/") { return No(NotEmpty); }
          r := Yes(None);
        case File(cid, _) =>
          FileIsLeaf(nodes, ks);
          r := Yes(Some(cid));
      }
      RemoveTree(nodes, ks);
      nodes := nodes - {full};
    }

    /** The listing of a directory is exactly the nodes whose parent it is. */
    method ListDirectory(path: string) returns (r: Answer<set<string>>)
      requires Tree(nodes)
      ensures var full := Print(Normal(path));
              r == if full !in nodes then No(NoSuchPath)
                   else if nodes[full].File? then No(NotDirectory)
                   else Yes(set key | key in nodes && ChildOf(key, Normal(full)))
    {
      hide Tree, Print, Normal, ChildOf, Names, Pieces, Parsed, Prefix;
      NormalParsed(path);
      var cs := Normalize(path);
      var full := Print(cs);
      if full !in nodes { return No(NoSuchPath); }
      if nodes[full].File? { return No(NotDirectory); }
      ghost var ks := Pieces(cs);
      StoredPath(nodes, cs);
      SamePrefix(cs);
      var prefix := Prefix(cs);
      var entries: set<string> := {};
      var todo := nodes.Keys;
      while todo != {}
        invariant todo <= nodes.Keys
        invariant entries == set key | key in nodes && key !in todo && ChildOf(key, ks)
        decreases |todo|
      {
        var key :| key in todo;
        ListedIff(nodes, key, ks);
        if key != full && StartsWith(key, prefix) && key[|prefix|..] != "" && '/' !in key[|prefix|..] {
          entries := entries + {key};
        }
        todo := todo - {key};
      }
      assert entries == set key | key in nodes && ChildOf(key, ks);
      r := Yes(entries);
    }
  }

  /** A path that is stored is the printed form of its pieces. */
  lemma StoredPath(nodes: Nodes, cs: seq<string>)
    requires Tree(nodes) && Parsed(cs) && Print(cs) in nodes
    ensures Names(Pieces(cs)) && Print(Pieces(cs)) == Print(cs) && Normal(Print(cs)) == Pieces(cs) && (cs != [] ==> Pieces(cs) != [])
  {
    assert cs[..|cs|] == cs;
    CanonicalPrefix(nodes, cs, |cs|);
    PrintPieces(cs);
    PiecesNotEmpty(cs);
    hide Print, Normal, Pieces;
  }

  lemma SamePrefix(cs: seq<string>)
    ensures Prefix(cs) == Prefix(Pieces(cs))
  {
    PrintPieces(cs);
    PiecesNotEmpty(cs);
    if cs == [] { NoPieces(); }
  }

  lemma RootIsDir(nodes: Nodes)
    requires Tree(nodes)
    ensures IsDir(nodes, "/")
  {
  }

  lemma ListedIff(nodes: Nodes, key: string, dir: seq<string>)
    requires Tree(nodes) && key in nodes && Names(dir)
    ensures key != Print(dir) && StartsWith(key, Prefix(dir)) && key[|Prefix(dir)|..] != "" && '/' !in key[|Prefix(dir)|..]
            <==> ChildOf(key, dir)
  {
    hide Print, Normal, Prefix;
    assert InTree(nodes, key);
    PrefixIsBelow(Normal(key), dir);
  }

  /** A path in which no surviving part holds a backslash is always grounded. */
  lemma NoBackslashGrounded(nodes: Nodes, path: string)
    requires forall i :: 0 <= i < |Survivors(Parts(path))| ==> '\\' !in Survivors(Parts(path))[i]
    ensures var cs := Normal(path); AllGrounded(nodes, cs) && (cs != [] ==> WriteGrounded(nodes, cs))
  {
    hide Normal, Parts, Survivors;
    var cs := Normal(path);
    ComponentsSurvive(path);
    NormalParsed(path);
    assert Names(cs);
    NamesGrounded(nodes, cs);
    PiecesPlain([], cs);
    NoPieces();
    assert [] + cs == cs;
  }

  /** A file written with a backslash in its name is stored below a directory that nobody made, unless it is there. */
  method WriteWithBackslash(view: NfsView, stored: CapsuleId) returns (r: Answer<Option<CapsuleId>>)
    requires Tree(view.nodes) && "/a/b" !in view.nodes
    modifies view
    ensures r == Yes(None) && view.nodes == old(view.nodes)["/a/b" := File(stored, 0)]
    ensures Tree(view.nodes) <==> IsDir(old(view.nodes), "/a")
  {
    BackslashParts();
    PassableRoot(view.nodes);
    ParsePrinted(["a", "b"]);
    assert Print(["a", "b"]) == "/a/b" by { PrintPieces(["a/b"]); }
    NoDirectoryNoChild(view.nodes, "/a/b");
    r := view.WriteFile("a\\b", 0, Some(stored), view.nodes);
  }

  /** A directory and an entry in it that are made between a write's check and its insertion: the file takes the place of
      the directory, and the entry is left below a file. */
  method DirectoryMadeMeanwhile(view: NfsView, meanwhile: Nodes, path: string, stored: CapsuleId) returns (r: Answer<Option<CapsuleId>>)
    requires Tree(view.nodes) && Tree(meanwhile) && Normal(path) != [] && !IsDir(view.nodes, Print(Normal(path)))
    requires IsDir(meanwhile, Print(Normal(path))) && HasChild(meanwhile, Normal(Print(Normal(path))))
    modifies view
    ensures r == Yes(None) && !Tree(view.nodes)
  {
    NormalParsed(path);
    StoredParent(meanwhile, Normal(path));
    r := view.WriteFile(path, 0, Some(stored), meanwhile);
  }

  /** What is stored can be reached. */
  lemma StoredParent(nodes: Nodes, cs: seq<string>)
    requires Tree(nodes) && Parsed(cs) && cs != [] && Print(cs) in nodes
    ensures ParentPassable(nodes, cs)
  {
    hide Print, Normal, Pieces, Parsed;
    var n, parent, ks := |cs| - 1, Normal(ParentPath(cs)), Pieces(cs);
    StoredPath(nodes, cs);
    ParentPieces(cs);
    ParentIs(cs);
    forall i | 0 <= i <= |parent| ensures Print(parent[..i]) in nodes ==> nodes[Print(parent[..i])].Directory? {
      AncestorsAreDirectories(nodes, ks, i);
      assert parent[..i] == ks[..i];
    }
  }

  lemma ParentIs(cs: seq<string>)
    requires Parsed(cs) && cs != [] && Names(Pieces(cs))
    ensures Normal(ParentPath(cs)) < Pieces(cs)
  {
    hide Print, Normal, Parts, Pieces;
    var n := |cs| - 1;
    assert cs[..n + 1] == cs && cs[..n] == Parent(cs);
    PiecesPrefix(cs, n, n + 1);
    NamesPrefix(Pieces(Parent(cs)), Pieces(cs));
    ParentParses(cs);
  }

  lemma PassableRoot(nodes: Nodes)
    requires Tree(nodes)
    ensures Passable(nodes, [], 0) && WithDirs(nodes, [], 0) == nodes
  {
    RootIsDir(nodes);
    WithDirsStart(nodes, []);
  }

  lemma BackslashParts()
    ensures Normal("a\\b") == ["a/b"] && Print(["a/b"]) == "/a/b" && ParentPath(["a/b"]) == "/" && Normal("/") == []
    ensures Parts("a/b") == ["a", "b"] && Pieces(["a/b"]) == ["a", "b"] && Names(["a", "b"]) && Print(["a"]) == "/a"
  {
    BackslashNormal();
    ParsePrinted([]);
    PrintRoot();
    BackslashPieces();
    hide Normal, Parts, Pieces;
  }

  lemma BackslashNormal()
    ensures Normal("a\\b") == ["a/b"]
  {
    PartsOne("a\\b");
    assert Slashed("a\\b") == "a/b";
    assert PushAll([], ["a\\b"]) == ["a/b"] by { assert ["a\\b"][..0] == []; }
  }

  lemma BackslashPieces()
    ensures Parts("a/b") == ["a", "b"] && Pieces(["a/b"]) == ["a", "b"]
  {
    PartsOne("a");
    PartsOne("b");
    PartsJoin("a", "b");
    hide Parts;
    assert "a" + "/" + "b" == "a/b";
    PiecesSnoc([], "a/b");
    NoPieces();
  }
}
