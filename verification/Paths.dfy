/** Paths of the namespace: parsing, printing, and what a prefix of a printed path means. */
module Paths {

  /** The pieces between slashes. */
  function Parts(path: string): (ps: seq<string>)
    ensures |ps| >= 1
  {
    if path == "" then [""]
    else
      var rest := Parts(path[1..]);
      if path[0] == '/' then [""] + rest else [[path[0]] + rest[0]] + rest[1..]
  }

  function Slashed(part: string): string { seq(|part|, i requires 0 <= i < |part| => if part[i] == '\\' then '/' else part[i]) }

  /** One component: nothing, the directory itself, its parent (the root's is the root), or a name. */
  function Push(cs: seq<string>, part: string): seq<string> {
    if part == "" || part == "." then cs
    else if part == ".." then if cs == [] then [] else cs[..|cs| - 1]
    else cs + [Slashed(part)]
  }

  function PushAll(cs: seq<string>, parts: seq<string>): seq<string> {
    if parts == [] then cs else Push(PushAll(cs, parts[..|parts| - 1]), parts[|parts| - 1])
  }

  /** `normalize_path`: the components of a path. */
  function Normal(path: string): seq<string> { PushAll([], Parts(path)) }

  method Normalize(path: string) returns (components: seq<string>)
    ensures components == Normal(path)
  {
    var parts := Parts(path);
    components := [];
    for i := 0 to |parts|
      invariant components == PushAll([], parts[..i])
    {
      assert parts[..i + 1][..i] == parts[..i];
      var part := parts[i];
      if part == "" || part == "." {
      } else if part == ".." {
        if components != [] { components := components[..|components| - 1]; }
      } else {
        components := components + [Slashed(part)];
      }
    }
    assert parts[..|parts|] == parts;
  }

  function Join(cs: seq<string>): string
    requires cs != []
  {
    if |cs| == 1 then cs[0] else cs[0] + "/" + Join(cs[1..])
  }

  /** The full path of a list of components. */
  function Print(cs: seq<string>): string { if cs == [] then "/" else "/" + Join(cs) }

  function ParentPath(cs: seq<string>): string
    requires cs != []
  {
    if |cs| == 1 then "/" else "/" + Join(cs[..|cs| - 1])
  }

  predicate Name(c: string) { c != "" && c != "." && c != ".." && '/' !in c && '\\' !in c }

  predicate Names(cs: seq<string>) { forall i :: 0 <= i < |cs| ==> Name(cs[i]) }

  predicate StartsWith(s: string, prefix: string) { prefix <= s }

  // ---------------------------------------------------------------- splitting

  lemma {:induction false} PartsJoin(a: string, b: string)
    ensures Parts(a + "/" + b) == Parts(a) + Parts(b)
  {
    hide Parts;
    var whole := a + "/" + b;
    if a == "" {
      PartsEmpty();
      PartsCons(whole);
      assert whole[1..] == b;
    } else {
      PartsJoin(a[1..], b);
      PartsCons(whole);
      PartsCons(a);
      assert whole[1..] == a[1..] + "/" + b;
      var x, y := Parts(a[1..]), Parts(b);
      assert (x + y)[0] == x[0] && (x + y)[1..] == x[1..] + y;
    }
  }

  lemma PartsEmpty()
    ensures Parts("") == [""]
  {
  }

  lemma PartsCons(path: string)
    requires path != ""
    ensures var rest := Parts(path[1..]);
            Parts(path) == if path[0] == '/' then [""] + rest else [[path[0]] + rest[0]] + rest[1..]
  {
  }

  lemma {:induction false} PartsOne(c: string)
    ensures Parts(c) == [c] <==> '/' !in c
    ensures |Parts(c)| == 1 <==> '/' !in c
  {
    if c != "" {
      PartsOne(c[1..]);
      assert c == [c[0]] + c[1..];
    }
  }

  /** No part holds a slash, nor a backslash if the path has none. */
  lemma {:induction false} PartsChars(path: string)
    ensures forall i :: 0 <= i < |Parts(path)| ==> '/' !in Parts(path)[i] && ('\\' !in path ==> '\\' !in Parts(path)[i])
  {
    if path != "" { PartsChars(path[1..]); }
  }

  lemma {:induction false} JoinSnoc(cs: seq<string>, c: string)
    requires cs != []
    ensures Join(cs + [c]) == Join(cs) + "/" + c
  {
    if |cs| == 1 {
      assert (cs + [c])[1..] == [c];
    } else {
      JoinSnoc(cs[1..], c);
      assert (cs + [c])[1..] == cs[1..] + [c];
    }
  }

  /** A printed path is every component behind a slash. */
  lemma PrintSnoc(cs: seq<string>, c: string)
    ensures Print(cs + [c]) == (if cs == [] then "" else Print(cs)) + "/" + c
  {
    if cs == [] {
      assert cs + [c] == [c];
    } else {
      JoinSnoc(cs, c);
    }
  }

  lemma {:induction false} PartsPrint(cs: seq<string>)
    requires Names(cs)
    ensures Parts(Print(cs)) == if cs == [] then ["", ""] else [""] + cs
  {
    if cs == [] {
      assert Parts("/"[1..]) == [""];
    } else {
      var init, c := cs[..|cs| - 1], cs[|cs| - 1];
      assert cs == init + [c];
      PrintSnoc(init, c);
      PartsOne(c);
      PartsJoin(if init == [] then "" else Print(init), c);
      if init != [] { PartsPrint(init); }
    }
  }

  lemma {:induction false} PushNames(cs: seq<string>, parts: seq<string>)
    requires Names(parts)
    ensures PushAll(cs, parts) == cs + parts
  {
    if parts != [] {
      var n := |parts| - 1;
      PushNames(cs, parts[..n]);
      assert Slashed(parts[n]) == parts[n];
      assert cs + parts[..n] + [parts[n]] == cs + parts;
    }
  }

  lemma {:induction false} PushConcat(cs: seq<string>, a: seq<string>, b: seq<string>)
    ensures PushAll(cs, a + b) == PushAll(PushAll(cs, a), b)
  {
    if b == [] {
      assert a + b == a;
    } else {
      PushConcat(cs, a, b[..|b| - 1]);
      assert (a + b)[..|a + b| - 1] == a + b[..|b| - 1];
    }
  }

  lemma {:induction false} PushedAre(parts: seq<string>)
    requires forall i :: 0 <= i < |parts| ==> '/' !in parts[i]
    ensures forall c :: c in PushAll([], parts) ==>
      && c != "" && c != "." && c != ".." && '\\' !in c
      && ((forall i :: 0 <= i < |parts| ==> '\\' !in parts[i]) ==> '/' !in c)
  {
    if parts != [] {
      var n := |parts| - 1;
      PushedAre(parts[..n]);
      SlashedIs(parts[n]);
    }
  }

  lemma SlashedIs(part: string)
    requires '/' !in part
    ensures |Slashed(part)| == |part| && '\\' !in Slashed(part)
    ensures '/' in Slashed(part) <==> '\\' in part
    ensures '\\' !in part ==> Slashed(part) == part
  {
    if '\\' in part {
      var i :| 0 <= i < |part| && part[i] == '\\';
      assert Slashed(part)[i] == '/';
    }
  }

  // ---------------------------------------------------------------- parsing and printing

  /** Whatever is parsed has no empty, dot or dot-dot component; and without a backslash in the path, only names. */
  lemma NormalNames(path: string)
    ensures forall c :: c in Normal(path) ==> c != "" && c != "." && c != ".." && '\\' !in c
    ensures '\\' !in path ==> Names(Normal(path))
  {
    PartsChars(path);
    PushedAre(Parts(path));
    forall i | 0 <= i < |Normal(path)| && '\\' !in path ensures Name(Normal(path)[i]) {
      assert Normal(path)[i] in Normal(path);
    }
  }

  /** Printing and parsing again gives the same names: printed paths are canonical. */
  lemma ParsePrinted(cs: seq<string>)
    requires Names(cs)
    ensures Normal(Print(cs)) == cs
  {
    PartsPrint(cs);
    if cs == [] {
      assert PushAll([], ["", ""]) == [] by { assert ["", ""][..1] == [""]; }
    } else {
      PushConcat([], [""], cs);
      PushNames([], cs);
      assert PushAll([], [""]) == [];
    }
  }

  /** The parts of a path that are not skipped, and not taken back by a later parent step. */
  function Survivors(parts: seq<string>): seq<string> {
    if parts == [] then []
    else
      var before, part := Survivors(parts[..|parts| - 1]), parts[|parts| - 1];
      if part == "" || part == "." then before
      else if part == ".." then if before == [] then [] else before[..|before| - 1]
      else before + [part]
  }

  lemma {:induction false} PushedSurvive(parts: seq<string>)
    ensures |PushAll([], parts)| == |Survivors(parts)|
    ensures forall i :: 0 <= i < |Survivors(parts)| ==> PushAll([], parts)[i] == Slashed(Survivors(parts)[i]) && Survivors(parts)[i] in parts
  {
    hide Slashed;
    if parts != [] {
      var n := |parts| - 1;
      PushedSurvive(parts[..n]);
    }
  }

  /** Each component is a surviving part with its backslashes turned into slashes. */
  lemma ComponentsSurvive(path: string)
    ensures |Normal(path)| == |Survivors(Parts(path))|
    ensures forall i :: 0 <= i < |Normal(path)| ==>
      var part := Survivors(Parts(path))[i];
      Normal(path)[i] == Slashed(part) && '/' !in part && ('/' in Normal(path)[i] <==> '\\' in part)
  {
    PushedSurvive(Parts(path));
    PartsChars(path);
    hide Parts, Slashed;
    forall i | 0 <= i < |Normal(path)| ensures '/' !in Survivors(Parts(path))[i] && ('/' in Normal(path)[i] <==> '\\' in Survivors(Parts(path))[i]) {
      SlashedIs(Survivors(Parts(path))[i]);
    }
  }

  /** Normalising twice changes nothing, exactly when no surviving part of the path holds a backslash. */
  lemma NormalIdempotentIff(path: string)
    ensures Normal(Print(Normal(path))) == Normal(path) <==>
      forall i :: 0 <= i < |Survivors(Parts(path))| ==> '\\' !in Survivors(Parts(path))[i]
  {
    hide Normal, Print, Parts, Survivors, Slashed;
    var cs := Normal(path);
    NormalNames(path);
    ComponentsSurvive(path);
    if forall i :: 0 <= i < |cs| ==> '/' !in cs[i] {
      forall i | 0 <= i < |cs| ensures Name(cs[i]) { assert cs[i] in cs; }
      ParsePrinted(cs);
    } else {
      var i :| 0 <= i < |cs| && '/' in cs[i];
      assert !Name(cs[i]);
      PrintChars(cs);
      NormalNames(Print(cs));
    }
  }

  lemma {:induction false} PrintChars(cs: seq<string>)
    requires forall c :: c in cs ==> '\\' !in c
    ensures '\\' !in Print(cs)
  {
    if cs != [] {
      var n := |cs| - 1;
      assert cs == cs[..n] + [cs[n]];
      PrintChars(cs[..n]);
      PrintSnoc(cs[..n], cs[n]);
    }
  }

  /** The parent of the root is the root, and paths without a leading slash start at the root too. */
  lemma NeverAboveRoot(path: string)
    ensures Normal("../" + path) == Normal(path) && Normal("/" + path) == Normal(path)
  {
    PartsJoin("..", path);
    PartsJoin("", path);
    assert ".." + "/" + path == "../" + path && "" + "/" + path == "/" + path;
    PartsOne("..");
    PushConcat([], [".."], Parts(path));
    PushConcat([], [""], Parts(path));
    assert PushAll([], [".."]) == [] && PushAll([], [""]) == [];
  }

  // ---------------------------------------------------------------- components that hold slashes

  /** What every component of a parsed path is; it may hold slashes. */
  predicate Parsed(cs: seq<string>) {
    forall i :: 0 <= i < |cs| ==> cs[i] != "" && cs[i] != "." && cs[i] != ".." && '\\' !in cs[i]
  }

  lemma NormalParsed(path: string)
    ensures Parsed(Normal(path))
  {
    NormalNames(path);
    hide Normal;
    forall i | 0 <= i < |Normal(path)| ensures Normal(path)[i] != "" && Normal(path)[i] != "." && Normal(path)[i] != ".." && '\\' !in Normal(path)[i] {
      assert Normal(path)[i] in Normal(path);
    }
  }

  /** The components taken apart at their slashes. */
  function Pieces(cs: seq<string>): seq<string> {
    if cs == [] then [] else Pieces(cs[..|cs| - 1]) + Parts(cs[|cs| - 1])
  }

  lemma PiecesSnoc(cs: seq<string>, c: string)
    ensures Pieces(cs + [c]) == Pieces(cs) + Parts(c)
  {
    assert (cs + [c])[..|cs|] == cs;
  }

  lemma {:induction false} PiecesPlain(cs: seq<string>, more: seq<string>)
    requires forall i :: 0 <= i < |more| ==> '/' !in more[i]
    ensures Pieces(cs + more) == Pieces(cs) + more
  {
    hide Parts, Pieces;
    if more == [] {
      assert cs + more == cs;
    } else {
      var n := |more| - 1;
      var init, last := more[..n], more[n];
      PiecesPlain(cs, init);
      assert more == init + [last] && cs + more == (cs + init) + [last];
      PiecesSnoc(cs + init, last);
      PartsOne(last);
      assert Pieces(cs) + init + [last] == Pieces(cs) + more;
    }
  }

  lemma {:induction false} JoinParts(c: string)
    ensures Join(Parts(c)) == c
  {
    if c != "" {
      JoinParts(c[1..]);
      var rest := Parts(c[1..]);
      if c[0] == '/' {
        assert ([""] + rest)[1..] == rest;
        assert Join([""] + rest) == "" + "/" + Join(rest);
      } else {
        assert ([[c[0]] + rest[0]] + rest[1..])[1..] == rest[1..];
        assert Join(Parts(c)) == [c[0]] + Join(rest);
      }
    }
  }

  lemma {:induction false} JoinConcat(a: seq<string>, b: seq<string>)
    requires a != [] && b != []
    ensures Join(a + b) == Join(a) + "/" + Join(b)
  {
    if |a| == 1 {
      assert (a + b)[1..] == b;
    } else {
      JoinConcat(a[1..], b);
      assert (a + b)[1..] == a[1..] + b;
    }
  }

  lemma {:induction false} PiecesNotEmpty(cs: seq<string>)
    ensures |Pieces(cs)| >= |cs|
  {
    if cs != [] { PiecesNotEmpty(cs[..|cs| - 1]); }
  }

  /** Taking apart does not show in print. */
  lemma {:induction false} PrintPieces(cs: seq<string>)
    ensures Print(Pieces(cs)) == Print(cs)
  {
    hide Join, Parts, Pieces, Print;
    if cs == [] {
      NoPieces();
    } else {
      var init, c := cs[..|cs| - 1], cs[|cs| - 1];
      assert cs == init + [c];
      PrintPieces(init);
      PiecesSnoc(init, c);
      PrintSnoc(init, c);
      JoinParts(c);
      PiecesNotEmpty(init);
      if init == [] { NoPieces(); }
      PrintMore(Pieces(init), Parts(c));
    }
  }

  lemma PrintMore(cs: seq<string>, ps: seq<string>)
    requires ps != []
    ensures Print(cs + ps) == (if cs == [] then "" else Print(cs)) + "/" + Join(ps)
  {
    hide Join;
    if cs == [] { assert cs + ps == ps; } else { JoinConcat(cs, ps); }
  }

  lemma PiecesPrinted(cs: seq<string>, more: seq<string>)
    requires forall i :: 0 <= i < |more| ==> '/' !in more[i]
    ensures Print(Pieces(cs) + more) == Print(cs + more)
  {
    PiecesPlain(cs, more);
    PrintPieces(cs + more);
  }

  lemma {:induction false} PartsPrintAny(cs: seq<string>)
    requires cs != []
    ensures Parts(Print(cs)) == [""] + Pieces(cs)
  {
    hide Parts;
    var init, c := cs[..|cs| - 1], cs[|cs| - 1];
    assert cs == init + [c];
    PrintSnoc(init, c);
    PartsJoin(if init == [] then "" else Print(init), c);
    if init == [] { PartsEmpty(); } else { PartsPrintAny(init); }
  }

  /** The printed form of parsed components is canonical exactly if all the pieces are names. */
  lemma CanonicalIff(cs: seq<string>)
    requires Parsed(cs)
    ensures Canonical(Print(cs)) <==> Names(Pieces(cs))
    ensures Canonical(Print(cs)) ==> Normal(Print(cs)) == Pieces(cs)
  {
    hide Normal, Pieces, Print, Parts;
    var ns := Normal(Print(cs));
    PrintPieces(cs);
    if Names(Pieces(cs)) { ParsePrinted(Pieces(cs)); }
    if Canonical(Print(cs)) {
      if cs == [] {
        ParsePrinted([]);
        NoPieces();
      } else {
        PrintLonger(cs, 0, |cs|);
        assert cs[..0] == [] && cs[..|cs|] == cs;
        PartsPrintAny(cs);
        PartsPrint(ns);
        assert ([""] + Pieces(cs))[1..] == Pieces(cs) && ([""] + ns)[1..] == ns;
      }
    }
  }

  lemma NoPieces()
    ensures Pieces([]) == []
  {
  }

  /** `key` is the printed form of names. */
  predicate Canonical(key: string) { Names(Normal(key)) && Print(Normal(key)) == key }

  /** Every component makes the printed path longer. */
  lemma {:induction false} PrintLonger(cs: seq<string>, i: nat, j: nat)
    requires Parsed(cs) && i < j <= |cs|
    ensures |Print(cs[..i])| < |Print(cs[..j])|
    decreases j
  {
    hide Print;
    if i < j - 1 { PrintLonger(cs, i, j - 1); }
    assert cs[..j] == cs[..j - 1] + [cs[j - 1]];
    SnocLonger(cs[..j - 1], cs[j - 1]);
  }

  lemma SnocLonger(cs: seq<string>, c: string)
    requires c != ""
    ensures |Print(cs)| < |Print(cs + [c])|
  {
    PrintSnoc(cs, c);
  }

  lemma {:induction false} PiecesPrefix(cs: seq<string>, i: nat, j: nat)
    requires i <= j <= |cs|
    ensures Pieces(cs[..i]) <= Pieces(cs[..j]) && (i < j ==> |Pieces(cs[..i])| < |Pieces(cs[..j])|)
    decreases j
  {
    hide Parts;
    if i < j {
      PiecesPrefix(cs, i, j - 1);
      assert cs[..j] == cs[..j - 1] + [cs[j - 1]];
      PiecesSnoc(cs[..j - 1], cs[j - 1]);
    }
  }

  // ---------------------------------------------------------------- prefixes

  /** What the scans of the namespace look for: `dir`'s path and a slash. */
  function Prefix(dir: seq<string>): string { if dir == [] then "/" else Print(dir) + "/" }

  /** Below `dir`: `dir`'s components and at least one more. */
  predicate Below(cs: seq<string>, dir: seq<string>) { |cs| > |dir| && cs[..|dir|] == dir }

  /** The prefix test is exact on printed paths; and what follows the prefix is a single name exactly for the
      children. */
  lemma PrefixIsBelow(cs: seq<string>, dir: seq<string>)
    requires Names(cs) && Names(dir)
    ensures Print(cs) != Print(dir) && StartsWith(Print(cs), Prefix(dir)) <==> Below(cs, dir)
    ensures Below(cs, dir) ==>
      var rest := Print(cs)[|Prefix(dir)|..];
      rest != "" && ('/' !in rest <==> |cs| == |dir| + 1)
  {
    hide Print, Prefix, Normal;
    ParsePrinted(cs);
    ParsePrinted(dir);
    if Below(cs, dir) {
      BelowThenPrefix(cs, dir, |cs|);
      assert cs[..|cs|] == cs;
      assert |cs| != |dir|;
      PrefixThenBelow(cs, dir);
    } else if Print(cs) != Print(dir) && StartsWith(Print(cs), Prefix(dir)) {
      PrefixThenBelow(cs, dir);
    }
  }

  lemma PrefixThenBelow(cs: seq<string>, dir: seq<string>)
    requires Names(cs) && Names(dir) && Print(cs) != Print(dir) && StartsWith(Print(cs), Prefix(dir))
    ensures Below(cs, dir)
    ensures var rest := Print(cs)[|Prefix(dir)|..]; rest != "" && ('/' !in rest <==> |cs| == |dir| + 1)
  {
    hide Print, Parts;
    var head := if dir == [] then "" else Print(dir);
    var rest := Print(cs)[|Prefix(dir)|..];
    assert Print([]) == "/" && Parts("") == [""] by { PrintRoot(); }
    assert Print(cs) == head + "/" + rest;
    PartsJoin(head, rest);
    PartsPrint(cs);
    PartsPrint(dir);
    PartsOne(rest);
    assert Parts(head) == [""] + dir;
    AfterHead(cs, dir, Parts(rest));
    assert Name(cs[|dir|]) && cs[|dir|] == Parts(rest)[0];
  }

  lemma PrintRoot()
    ensures Print([]) == "/" && Parts("") == [""]
  {
  }

  lemma AfterHead(cs: seq<string>, dir: seq<string>, more: seq<string>)
    requires [""] + cs == [""] + dir + more
    ensures cs == dir + more
  {
    assert ([""] + cs)[1..] == cs && ([""] + dir + more)[1..] == dir + more;
  }

  lemma {:induction false} BelowThenPrefix(cs: seq<string>, dir: seq<string>, n: nat)
    requires |dir| < n <= |cs| && cs[..|dir|] == dir
    ensures StartsWith(Print(cs[..n]), Prefix(dir))
  {
    hide Print;
    var before := cs[..n - 1];
    assert cs[..n] == before + [cs[n - 1]];
    PrintSnoc(before, cs[n - 1]);
    if n > |dir| + 1 {
      BelowThenPrefix(cs, dir, n - 1);
      assert Print(before) <= Print(cs[..n]);
    } else {
      assert before == dir;
    }
  }

  lemma ParentIsPrint(cs: seq<string>)
    requires cs != []
    ensures ParentPath(cs) == Print(cs[..|cs| - 1])
  {
  }
}
