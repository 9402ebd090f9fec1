/** The deploy gate `check_alembic_graph` and the repair tool `merge_alembic_heads`, over the version files. */
module AlembicScripts {
  import opened Options
  import opened RevisionGraph
  import opened Text

  /** A file of the versions directory; `tag` is the text of its branch labels, empty for none. */
  datatype File = File(name: string, revision: Option<Rev>, down: seq<Rev>, tag: string)

  datatype Process = Process(returncode: int, lines: seq<string>)

  // ----- what Alembic sees -----

  /** A later file with the same id replaces an earlier one. */
  function GraphOf(files: seq<File>): Graph {
    if files == [] then map[]
    else
      var f, g := files[|files| - 1], GraphOf(files[..|files| - 1]);
      if f.revision.Some? then g[f.revision.value := (set p | p in f.down)] else g
  }

  function Labels(files: seq<File>): map<Rev, string> {
    if files == [] then map[]
    else
      var f, m := files[|files| - 1], Labels(files[..|files| - 1]);
      if f.revision.Some? then m[f.revision.value := f.tag] else m
  }

  /** File `i` is the last one that declares the revision. */
  ghost predicate LastDeclares(files: seq<File>, r: Rev, i: nat) {
    i < |files| && files[i].revision == Some(r) && forall j :: i < j < |files| ==> files[j].revision != Some(r)
  }

  /** The graph has exactly the declared revisions, each with the parents of the last file that declares it. */
  lemma {:induction false} GraphOfExactly(files: seq<File>, r: Rev)
    ensures r in GraphOf(files) <==> exists i :: 0 <= i < |files| && files[i].revision == Some(r)
    ensures forall i: nat :: LastDeclares(files, r, i) ==> r in GraphOf(files) && GraphOf(files)[r] == set p | p in files[i].down
  {
    if files != [] {
      GraphOfExactly(files[..|files| - 1], r);
      LastIsEarlier(files, r);
    }
  }

  /** The labels likewise. */
  lemma {:induction false} LabelsExactly(files: seq<File>, r: Rev)
    ensures r in Labels(files) <==> exists i :: 0 <= i < |files| && files[i].revision == Some(r)
    ensures forall i: nat :: LastDeclares(files, r, i) ==> r in Labels(files) && Labels(files)[r] == files[i].tag
  {
    if files != [] {
      LabelsExactly(files[..|files| - 1], r);
      LastIsEarlier(files, r);
    }
  }

  lemma LastIsEarlier(files: seq<File>, r: Rev)
    requires files != []
    ensures var n := |files| - 1;
      if files[n].revision == Some(r) then forall i: nat :: LastDeclares(files, r, i) <==> i == n
      else forall i: nat :: LastDeclares(files, r, i) <==> LastDeclares(files[..n], r, i)
  {
  }

  predicate IsRevId(r: Rev) {
    r != [] && forall i :: 0 <= i < |r| ==> !IsSpace(r[i])
  }

  /** The line `alembic heads` prints for one head. */
  function HeadLine(h: Rev, tag: string): string {
    h + (if tag == "" then "" else " (" + tag + ")") + " (head)"
  }

  /** `p` is what `alembic heads` does on these files: it fails on a broken graph, else lists every head once. */
  ghost predicate AlembicHeads(files: seq<File>, p: Process) {
    && (p.returncode == 0 <==> WellFormed(GraphOf(files)))
    && (p.returncode == 0 ==> exists order :: ListsHeads(files, p, order))
  }

  ghost predicate ListsHeads(files: seq<File>, p: Process, order: seq<Rev>) {
    && NoDup(order) && Elements(order) == Heads(GraphOf(files))
    && |p.lines| == |order|
    && forall i :: 0 <= i < |order| ==>
         order[i] in Labels(files) && IsRevId(order[i]) && p.lines[i] == HeadLine(order[i], Labels(files)[order[i]])
  }

  // ----- check_alembic_graph -----

  function NamesOf(files: seq<File>, r: Rev): seq<string> {
    if files == [] then []
    else
      NamesOf(files[..|files| - 1], r)
      + (if files[|files| - 1].revision == Some(r) then [files[|files| - 1].name] else [])
  }

  ghost predicate UniqueIds(files: seq<File>) {
    forall i, j :: 0 <= i < j < |files| && files[i].revision.Some? ==> files[i].revision != files[j].revision
  }

  lemma {:induction false} NamesCountDeclarations(files: seq<File>, r: Rev)
    ensures |NamesOf(files, r)| == 0 <==> forall i :: 0 <= i < |files| ==> files[i].revision != Some(r)
    ensures |NamesOf(files, r)| <= 1 <==>
      forall i, j :: 0 <= i < j < |files| && files[i].revision == Some(r) ==> files[j].revision != Some(r)
  {
    if files != [] {
      var front := files[..|files| - 1];
      NamesCountDeclarations(front, r);
      assert forall i :: 0 <= i < |front| ==> front[i] == files[i];
      if files[|files| - 1].revision == Some(r) && |NamesOf(front, r)| > 0 {
        var i :| 0 <= i < |front| && front[i].revision == Some(r);
        assert files[i].revision == Some(r) && files[|files| - 1].revision == Some(r);
      }
      if |NamesOf(front, r)| > 1 {
        var i, j :| 0 <= i < j < |front| && front[i].revision == Some(r) && front[j].revision == Some(r);
        assert files[i].revision == Some(r) && files[j].revision == Some(r);
      }
    }
  }

  method CollectRevisions(files: seq<File>) returns (byId: map<Rev, seq<string>>)
    ensures forall r :: r in byId <==> |NamesOf(files, r)| > 0
    ensures forall r :: r in byId ==> byId[r] == NamesOf(files, r)
  {
    byId := map[];
    var i := 0;
    while i < |files|
      invariant 0 <= i <= |files|
      invariant forall r :: r in byId <==> |NamesOf(files[..i], r)| > 0
      invariant forall r :: r in byId ==> byId[r] == NamesOf(files[..i], r)
    {
      assert files[..i + 1][..i] == files[..i];
      var f := files[i];
      if f.revision.Some? {
        var r := f.revision.value;
        byId := byId[r := (if r in byId then byId[r] else []) + [f.name]];
      }
      i := i + 1;
    }
    assert files[..i] == files;
  }

  /** Exit code 0 exactly when ids are unique, Alembic can read the graph, and one line announces a head. */
  method CheckGraph(files: seq<File>, heads: Process) returns (code: int)
    ensures code == 0 <==> UniqueIds(files) && heads.returncode == 0 && |HeadLines(heads.lines)| == 1
    ensures code == 0 || code == 1
  {
    var errors := 0;
    var byId := CollectRevisions(files);
    var duplicates := set r | r in byId && |byId[r]| > 1;
    if duplicates != {} {
      errors := errors + |duplicates|;
    }
    assert duplicates == {} <==> UniqueIds(files) by {
      forall r ensures |NamesOf(files, r)| <= 1 <==>
        forall i, j :: 0 <= i < j < |files| && files[i].revision == Some(r) ==> files[j].revision != Some(r)
      {
        NamesCountDeclarations(files, r);
      }
      if UniqueIds(files) {
        assert forall r :: |NamesOf(files, r)| <= 1;
      } else {
        var i, j :| 0 <= i < j < |files| && files[i].revision.Some? && files[i].revision == files[j].revision;
        assert |NamesOf(files, files[i].revision.value)| > 1;
        assert files[i].revision.value in duplicates;
      }
    }
    assert duplicates != {} ==> |duplicates| > 0;
    if heads.returncode != 0 {
      errors := errors + 1;
    } else {
      var lines := HeadLines(heads.lines);
      if |lines| != 1 {
        errors := errors + 1;
      }
    }
    return if errors > 0 then 1 else 0;
  }

  function HeadLines(lines: seq<string>): seq<string> {
    if lines == [] then []
    else
      HeadLines(lines[..|lines| - 1])
      + (if Strip(lines[|lines| - 1]) != "" && Contains(lines[|lines| - 1], "(head)") then [Strip(lines[|lines| - 1])] else [])
  }

  // ----- reading the lines -----

  lemma HeadLineShape(h: Rev, tag: string)
    requires IsRevId(h)
    ensures Strip(HeadLine(h, tag)) == HeadLine(h, tag) && Contains(HeadLine(h, tag), "(head)")
  {
    var line := HeadLine(h, tag);
    assert line[0] == h[0] && line[|line| - 1] == ')';
    assert StartsAt(line, |line| - 6, "(head)");
  }

  lemma {:induction false} AllLinesAnnounceHeads(lines: seq<string>)
    requires forall i :: 0 <= i < |lines| ==> Strip(lines[i]) != "" && Contains(lines[i], "(head)")
    ensures |HeadLines(lines)| == |lines|
  {
    if lines != [] {
      AllLinesAnnounceHeads(lines[..|lines| - 1]);
    }
  }

  /**
   * The gate means what it says: it passes exactly when ids are unique, the graph is acyclic and closed,
   * and there is one head; every migration is then an ancestor of that head.
   */
  lemma GatePassesExactly(files: seq<File>, heads: Process)
    requires AlembicHeads(files, heads)
    ensures (UniqueIds(files) && heads.returncode == 0 && |HeadLines(heads.lines)| == 1)
            <==> UniqueIds(files) && WellFormed(GraphOf(files)) && |Heads(GraphOf(files))| == 1
    ensures WellFormed(GraphOf(files)) && |Heads(GraphOf(files))| == 1 ==>
              exists h :: h in GraphOf(files) && forall r :: r in GraphOf(files) ==> Ancestor(GraphOf(files), r, h)
  {
    var g := GraphOf(files);
    if heads.returncode == 0 {
      var order :| ListsHeads(files, heads, order);
      NoDupCardinality(order);
      forall i | 0 <= i < |heads.lines|
        ensures Strip(heads.lines[i]) != "" && Contains(heads.lines[i], "(head)")
      {
        HeadLineShape(order[i], Labels(files)[order[i]]);
      }
      AllLinesAnnounceHeads(heads.lines);
    }
    if WellFormed(g) && |Heads(g)| == 1 {
      var h :| h in Heads(g);
      assert Heads(g) - {h} == {};
      assert Heads(g) == {h};
      SingleHeadReachesAll(g, h);
    }
  }

  /** Length of the leading run of non-space characters. */
  function WordLength(s: string): (n: nat)
    ensures n <= |s|
  {
    if s == [] || IsSpace(s[0]) then 0 else 1 + WordLength(s[1..])
  }

  /** `re.match(r"^(\S+)\s+\(head\)", line.strip())`. */
  function ParseLine(line: string): Option<Rev> {
    var t := Strip(line);
    var n := WordLength(t);
    var rest := t[n..];
    if n > 0 && StripLeft(rest) != rest && StartsAt(StripLeft(rest), 0, "(head)") then Some(t[..n]) else None
  }

  function ParsedHeads(lines: seq<string>): seq<Rev> {
    if lines == [] then []
    else
      var front, last := ParsedHeads(lines[..|lines| - 1]), lines[|lines| - 1];
      if !Contains(last, "(head)") || ParseLine(last).None? then front else front + [ParseLine(last).value]
  }

  method ParseHeads(lines: seq<string>) returns (heads: seq<Rev>)
    ensures heads == ParsedHeads(lines)
  {
    heads := [];
    var i := 0;
    while i < |lines|
      invariant 0 <= i <= |lines|
      invariant heads == ParsedHeads(lines[..i])
    {
      assert lines[..i + 1][..i] == lines[..i];
      if Contains(lines[i], "(head)") {
        var m := ParseLine(lines[i]);
        if m.Some? {
          heads := heads + [m.value];
        }
      }
      i := i + 1;
    }
    assert lines[..i] == lines;
  }

  lemma {:induction false} WordLengthOfPrefix(h: string, rest: string)
    requires forall i :: 0 <= i < |h| ==> !IsSpace(h[i])
    requires rest != [] && IsSpace(rest[0])
    ensures WordLength(h + rest) == |h|
  {
    if h == [] {
      assert h + rest == rest;
    } else {
      WordLengthOfPrefix(h[1..], rest);
      assert (h + rest)[1..] == h[1..] + rest;
    }
  }

  /** The label text does not hide the head from the pattern: there is none, or it reads `head` itself. */
  predicate Readable(tag: string) {
    tag == "" || "head)" <= tag + ") (head)"
  }

  lemma MarkInside(tail: string)
    ensures StartsAt("(" + tail, 0, "(head)") <==> "head)" <= tail
  {
    var after := "(" + tail;
    if "head)" <= tail {
      assert after[0..6] == "(head)";
    }
    if StartsAt(after, 0, "(head)") {
      assert tail[..5] == after[0..6][1..] == "head)";
    }
  }

  lemma AfterOneSpace(c: char, rest: string)
    requires !IsSpace(c)
    ensures StripLeft([' '] + ([c] + rest)) == [c] + rest
  {
  }

  /** The pattern reads a printed head back exactly when no branch label stands between id and mark. */
  lemma HeadLineParses(h: Rev, tag: string)
    requires IsRevId(h)
    ensures ParseLine(HeadLine(h, tag)) == if Readable(tag) then Some(h) else None
  {
    HeadLineShape(h, tag);
    var line := HeadLine(h, tag);
    var tail := if tag == "" then "head)" else tag + ") (head)";
    var rest := [' '] + (['('] + tail);
    assert line == h + rest;
    WordLengthOfPrefix(h, rest);
    assert line[..|h|] == h && line[|h|..] == rest;
    AfterOneSpace('(', tail);
    MarkInside(tail);
    assert "(" + tail == ['('] + tail;
  }

  /** The heads of a printed list that the tool gets to see. */
  function Visible(order: seq<Rev>, labels: map<Rev, string>): seq<Rev> {
    if order == [] then []
    else
      var h := order[|order| - 1];
      Visible(order[..|order| - 1], labels) + (if h in labels && Readable(labels[h]) then [h] else [])
  }

  /** The merge tool sees exactly the heads whose labels do not hide them. */
  lemma {:induction false} ToolSeesVisibleHeads(lines: seq<string>, order: seq<Rev>, labels: map<Rev, string>)
    requires |lines| == |order|
    requires forall i :: 0 <= i < |order| ==>
               order[i] in labels && IsRevId(order[i]) && lines[i] == HeadLine(order[i], labels[order[i]])
    ensures ParsedHeads(lines) == Visible(order, labels)
  {
    hide ParseLine, HeadLine, Contains, Readable, IsRevId, Strip;
    if order != [] {
      var n := |order| - 1;
      ToolSeesVisibleHeads(lines[..n], order[..n], labels);
      HeadLineShape(order[n], labels[order[n]]);
      HeadLineParses(order[n], labels[order[n]]);
    }
  }

  lemma {:induction false} VisibleIsAll(order: seq<Rev>, labels: map<Rev, string>)
    ensures |Visible(order, labels)| <= |order|
    ensures Visible(order, labels) == order <==> forall h :: h in order ==> h in labels && Readable(labels[h])
  {
    if order != [] {
      var n := |order| - 1;
      VisibleIsAll(order[..n], labels);
      assert order == order[..n] + [order[n]];
    }
  }

  // ----- merge_alembic_heads -----

  datatype Exit = Exit(code: int) | Raised

  /** The file `alembic merge heads` writes: an unused revision below all current heads. */
  ghost predicate IsMergeFile(files: seq<File>, f: File, unused: Rev) {
    f.revision == Some(unused) && Elements(f.down) == Heads(GraphOf(files))
    && forall i :: 0 <= i < |files| ==> files[i].revision != Some(unused)
  }

  lemma {:induction false} GraphKeysAreDeclared(files: seq<File>, r: Rev)
    requires forall i :: 0 <= i < |files| ==> files[i].revision != Some(r)
    ensures r !in GraphOf(files)
  {
    if files != [] {
      GraphKeysAreDeclared(files[..|files| - 1], r);
    }
  }

  lemma MergeFileMerges(files: seq<File>, f: File, unused: Rev)
    requires IsMergeFile(files, f, unused)
    ensures unused !in GraphOf(files) && GraphOf(files + [f]) == Merge(GraphOf(files), unused)
    ensures UniqueIds(files) ==> UniqueIds(files + [f])
  {
    GraphKeysAreDeclared(files, unused);
    assert (files + [f])[..|files|] == files;
    assert (set p | p in f.down) == Elements(f.down);
  }

  class Versions {
    var files: seq<File>

    constructor (files: seq<File>)
      ensures this.files == files
    {
      this.files := files;
    }

    /**
     * `main` of the merge tool. `first` and `second` are the two runs of `alembic heads`, `merge` the
     * return code of `alembic merge` and `f` the file it writes. A dry run, a failed merge and a graph with
     * at most one visible head leave the files alone; a merge of a sound graph passes the gate and leaves
     * the new revision as the one head, below which everything is.
     */
    method MergeHeads(dryRun: bool, first: Process, merge: int, f: File, ghost unused: Rev, second: Process)
      returns (e: Exit)
      requires AlembicHeads(files, first) && IsMergeFile(files, f, unused) && AlembicHeads(files + [f], second)
      modifies this
      ensures e.Raised? <==> !WellFormed(GraphOf(old(files)))
      ensures e.Exit? && (|ParsedHeads(first.lines)| <= 1 || dryRun) ==> e.code == 0
      ensures e.Exit? && |ParsedHeads(first.lines)| > 1 && !dryRun && merge != 0 ==> e.code == merge
      ensures files == if e.Raised? || |ParsedHeads(first.lines)| <= 1 || dryRun || merge != 0
                       then old(files) else old(files) + [f]
      ensures e.Exit? && files != old(files) ==>
                && Heads(GraphOf(files)) == {unused}
                && (forall r :: r in GraphOf(files) ==> Ancestor(GraphOf(files), r, unused))
                && (e.code == 0 <==> UniqueIds(old(files)))
    {
      if first.returncode != 0 {
        return Raised;
      }
      var heads := ParseHeads(first.lines);
      if |heads| <= 1 {
        return Exit(0);
      }
      if dryRun {
        return Exit(0);
      }
      if merge != 0 {
        return Exit(merge);
      }
      ghost var before := files;
      files := files + [f];
      MergeFileMerges(before, f, unused);
      MergeJoins(GraphOf(before), unused);
      GatePassesExactly(files, second);
      assert |{unused}| == 1;
      assert !UniqueIds(before) ==> !UniqueIds(files) by {
        if UniqueIds(files) {
          assert forall i :: 0 <= i < |before| ==> files[i] == before[i];
        }
      }
      var check := CheckGraph(files, second);
      return Exit(check);
    }
  }

  /**
   * The gate counts every head, the tool only those whose branch label does not hide them: the two agree
   * exactly when every head is readable.
   */
  lemma ToolAgreesWithGate(files: seq<File>, heads: Process, order: seq<Rev>)
    requires ListsHeads(files, heads, order)
    ensures |HeadLines(heads.lines)| == |order|
    ensures ParsedHeads(heads.lines) == Visible(order, Labels(files))
    ensures ParsedHeads(heads.lines) == order <==> forall h :: h in order ==> h in Labels(files) && Readable(Labels(files)[h])
  {
    forall i | 0 <= i < |heads.lines|
      ensures Strip(heads.lines[i]) != "" && Contains(heads.lines[i], "(head)")
    {
      HeadLineShape(order[i], Labels(files)[order[i]]);
    }
    AllLinesAnnounceHeads(heads.lines);
    ToolSeesVisibleHeads(heads.lines, order, Labels(files));
    VisibleIsAll(order, Labels(files));
  }

  lemma AppendFile(files: seq<File>, f: File)
    requires f.revision.Some? && f.down == []
    ensures GraphOf(files + [f]) == GraphOf(files)[f.revision.value := {}]
    ensures Labels(files + [f]) == Labels(files)[f.revision.value := f.tag]
  {
    assert (files + [f])[..|files|] == files;
    assert (set p | p in f.down) == {};
  }

  lemma OneOfTwoVisible(a: Rev, b: Rev, labels: map<Rev, string>)
    requires a in labels && b in labels && Readable(labels[a]) && !Readable(labels[b])
    ensures Visible([a, b], labels) == [a]
  {
    assert [a, b][..1] == [a] && [a][..0] == [];
    assert Visible([a], labels) == [a];
  }

  // ----- a labelled head -----

  const BRANCHED: seq<File> := [File("a.py", Some("1"), [], ""), File("b.py", Some("2"), [], "api")]
  const BRANCHED_HEADS := Process(0, [HeadLine("1", ""), HeadLine("2", "api")])

  /** Two revisions without parents, one of them labelled `api`: two heads, of which the tool sees one. */
  lemma OneHeadIsHidden()
    ensures UniqueIds(BRANCHED) && WellFormed(GraphOf(BRANCHED)) && Heads(GraphOf(BRANCHED)) == {"1", "2"}
    ensures AlembicHeads(BRANCHED, BRANCHED_HEADS) && BRANCHED_HEADS.returncode == 0
    ensures |HeadLines(BRANCHED_HEADS.lines)| == 2 && |ParsedHeads(BRANCHED_HEADS.lines)| == 1
  {
    BranchedGraph();
    BranchedLines();
    hide GraphOf, Labels, HeadLine, Readable;
    var order := ["1", "2"];
    ToolAgreesWithGate(BRANCHED, BRANCHED_HEADS, order);
    OneOfTwoVisible("1", "2", Labels(BRANCHED));
  }

  lemma BranchedGraph()
    ensures UniqueIds(BRANCHED)
    ensures GraphOf(BRANCHED) == map["1" := {}, "2" := {}]
    ensures Labels(BRANCHED) == map["1" := "", "2" := "api"]
    ensures WellFormed(GraphOf(BRANCHED)) && Heads(GraphOf(BRANCHED)) == {"1", "2"}
  {
    var a, b := BRANCHED[0], BRANCHED[1];
    assert BRANCHED == [] + [a] + [b];
    AppendFile([], a);
    AppendFile([] + [a], b);
    TwoRoots();
  }

  lemma TwoRoots()
    ensures var g: Graph := map["1" := {}, "2" := {}]; WellFormed(g) && Heads(g) == {"1", "2"}
  {
    var g: Graph := map["1" := {}, "2" := {}];
    assert Ranked(g, map["1" := 0, "2" := 0]);
  }

  lemma BranchedLines()
    ensures ListsHeads(BRANCHED, BRANCHED_HEADS, ["1", "2"])
    ensures Readable("") && !Readable("api")
  {
    BranchedGraph();
    hide GraphOf, Labels, HeadLine;
    var order := ["1", "2"];
    assert order[0] == "1" && order[1] == "2" && order[0][0] != order[1][0];
    assert ("api" + ") (head)")[0] != "head)"[0];
  }

  /**
   * So a labelled head stalls the repair: the gate exits with 1 and sends the operator to the tool, and the
   * tool exits with 0 and merges nothing.
   */
  method LabelledHeadStalls(v: Versions, dryRun: bool, merge: int, f: File, ghost unused: Rev, second: Process)
    returns (gate: int, repair: Exit)
    requires v.files == BRANCHED && IsMergeFile(v.files, f, unused) && AlembicHeads(v.files + [f], second)
    modifies v
    ensures gate == 1 && repair == Exit(0) && v.files == old(v.files)
  {
    OneHeadIsHidden();
    hide *;
    gate := CheckGraph(BRANCHED, BRANCHED_HEADS);
    repair := v.MergeHeads(dryRun, BRANCHED_HEADS, merge, f, unused, second);
  }
}
