/** Exclusive mode: a line of a file survives only while every element for that file carries
    it, and a surviving line's count is the sum of all of them. Exclusive mode never locks
    lines, so the lemmas here are about unlocked states. */
module AccumulatorExclusive {
  import opened Wrappers
  import opened OrderedMaps
  import opened Xml
  import opened CloverFile
  import opened AccumulatorModel
  import opened AccumulatorProperties

  /** Reading content with share `c` into `s` gave `r`, intersecting: file `f` is present when it
      was, or when `admit` lets a named element bring it in; line `n` is present when it was,
      or the file is brought in, and every element for `f` carries it; a present line's count
      grows by the elements' total. A share naming no element has nothing missing and no count. */
  predicate Intersects(s: AccState, r: AccState, f: string, n: int, c: Share, admit: bool) {
    && (c.named || (c.every && c.total == 0))
    && (f in r.files.values <==> f in s.files.values || (admit && c.named))
    && (n in LinesOf(r, f).values <==>
          c.every && (n in LinesOf(s, f).values || (admit && f !in s.files.values && c.named)))
    && (n in LinesOf(r, f).values ==> CountAt(LinesOf(r, f), n) == CountAt(LinesOf(s, f), n) + c.total)
  }

  lemma IntersectsTrans(s: AccState, m: AccState, r: AccState, f: string, n: int, c1: Share, c2: Share, admit: bool)
    requires Intersects(s, m, f, n, c1, admit) && Intersects(m, r, f, n, c2, admit)
    ensures Intersects(s, r, f, n, Plus(c1, c2), admit)
  {
    if f !in s.files.values && !(admit && c1.named) {
      assert LinesOf(m, f) == Empty();
    }
  }

  /** One file element in exclusive mode: a held file keeps only the line numbers the element
      also carries; a new file is stored as read. */
  lemma FileStepIntersects(s: AccState, e: Elem, pkg: Option<string>, f: string, n: int)
    requires s.mode == Exclusive && !s.lockLines && e.name == "file"
    ensures Intersects(s, ParseFile(s, e, pkg), f, n, ItemShare(e, f, n), true)
  {
    if NameOf(e) == Some(f) {
      var parsed := FileFromXml(e, pkg);
      FromXmlFacts(e, pkg, n);
      if f in s.files.values {
        MergeLines(s.files.values[f], parsed.file, s.mode, s.lockLines, n);
      }
    }
  }

  lemma {:induction false} ItemIntersects(s: AccState, e: Elem, pkg: Option<string>, f: string, n: int)
    requires s.mode == Exclusive && !s.lockLines
    ensures Intersects(s, ParseItem(s, e, pkg), f, n, ItemShare(e, f, n), true)
    decreases e, 1, 0
  {
    if e.name == "package" {
      var s' := if NameOf(e).Some? then s else s.(log := s.log + [PackageWithoutName]);
      ItemsIntersect(s', e, NameOf(e), 0, f, n);
    } else if e.name == "file" {
      FileStepIntersects(s, e, pkg, f, n);
    }
  }

  lemma {:induction false} ItemsIntersect(s: AccState, parent: Elem, pkg: Option<string>, i: nat, f: string, n: int)
    requires s.mode == Exclusive && !s.lockLines && i <= |parent.children|
    ensures Intersects(s, ParseItems(s, parent, pkg, i), f, n, ItemsShare(parent, i, f, n), true)
    decreases parent, 0, |parent.children| - i
  {
    if i < |parent.children| {
      var c := parent.children[i];
      var m := ParseItem(s, c, pkg);
      var r := ParseItems(m, parent, pkg, i + 1);
      assert r == ParseItems(s, parent, pkg, i);
      assert m.lockLines == s.lockLines && m.mode == s.mode by { ItemFlags(s, c, pkg); }
      assert Intersects(s, m, f, n, ItemShare(c, f, n), true) by { ItemIntersects(s, c, pkg, f, n); }
      assert Intersects(m, r, f, n, ItemsShare(parent, i + 1, f, n), true) by { ItemsIntersect(m, parent, pkg, i + 1, f, n); }
      IntersectsTrans(s, m, r, f, n, ItemShare(c, f, n), ItemsShare(parent, i + 1, f, n), true);
    } else {
      assert Intersects(s, s, f, n, NoShare, true);
    }
  }

  lemma {:induction false} ProjectsIntersect(s: AccState, doc: Elem, i: nat, f: string, n: int)
    requires s.mode == Exclusive && !s.lockLines && i <= |doc.children|
    ensures Intersects(s, ParseProjects(s, doc, i), f, n, ProjectsShare(doc, i, f, n), true)
    decreases |doc.children| - i
  {
    if i < |doc.children| {
      var p := doc.children[i];
      var m := ParseProject(s, p);
      var r := ParseProjects(m, doc, i + 1);
      assert r == ParseProjects(s, doc, i);
      assert m.lockLines == s.lockLines && m.mode == s.mode by {
        if p.name == "project" { ItemsFlags(s, p, None, 0); }
      }
      assert Intersects(s, m, f, n, ProjectShare(p, f, n), true) by {
        if p.name == "project" { ItemsIntersect(s, p, None, 0, f, n); }
      }
      assert Intersects(m, r, f, n, ProjectsShare(doc, i + 1, f, n), true) by { ProjectsIntersect(m, doc, i + 1, f, n); }
      IntersectsTrans(s, m, r, f, n, ProjectShare(p, f, n), ProjectsShare(doc, i + 1, f, n), true);
    } else {
      assert Intersects(s, s, f, n, NoShare, true);
    }
  }

  /** One document in exclusive mode. The first accepted document (`empty` still set) brings in
      the files it names, each keeping the line numbers all of its elements carry; a later one
      brings in no file, and a held file keeps only the line numbers that it and every element
      for it in the document carry. Counts of surviving lines add up in both cases. */
  lemma {:induction false} ParseXmlIntersects(s: AccState, doc: Elem, f: string, n: int)
    requires s.mode == Exclusive && !s.lockLines
    ensures Intersects(s, ParseXml(s, doc), f, n, DocShare(doc, f, n), s.empty)
  {
    if doc.name == "coverage" {
      ProjectsIntersect(s, doc, 0, f, n);
      ProjectsFlags(s, doc, 0);
      if !s.empty && f !in s.files.values {
        assert LinesOf(ParseXml(s, doc), f) == Empty();
      }
    } else {
      assert Intersects(s, ParseXml(s, doc), f, n, NoShare, s.empty);
    }
  }

  /** Exclusive mode past the first accepted document, over a whole run: the file names stay
      as they were, a line number survives exactly when it was present and every element for
      its file in every document carries it, and its count grows by all of their counts. */
  lemma {:induction false} ExclusiveIntersection(s: AccState, docs: seq<Elem>, f: string, n: int)
    requires s.mode == Exclusive && !s.lockLines && !s.empty
    ensures Intersects(s, ParseAll(s, docs), f, n, DocsShare(docs, f, n), false)
    decreases |docs|
  {
    if docs != [] {
      var m := ParseXml(s, docs[0]);
      ParseXmlIntersects(s, docs[0], f, n);
      if docs[0].name == "coverage" { ParseXmlFlags(s, docs[0]); }
      ExclusiveIntersection(m, docs[1..], f, n);
      IntersectsTrans(s, m, ParseAll(m, docs[1..]), f, n, DocShare(docs[0], f, n), DocsShare(docs[1..], f, n), false);
    } else {
      assert Intersects(s, s, f, n, NoShare, false);
    }
  }

  /** A whole exclusive run that opens with an accepted document: the files are those that
      document names, a line number is present exactly when every element for its file in
      every document carries it, and its count is the sum over all of them. */
  lemma ExclusiveRun(docs: seq<Elem>, f: string, n: int)
    requires |docs| > 0 && docs[0].name == "coverage"
    ensures var r := ParseAll(Initial(Exclusive), docs);
      && (f in r.files.values <==> DocShare(docs[0], f, n).named)
      && (n in LinesOf(r, f).values <==> DocShare(docs[0], f, n).named && DocsShare(docs, f, n).every)
      && (n in LinesOf(r, f).values ==> CountAt(LinesOf(r, f), n) == DocsShare(docs, f, n).total)
  {
    var s := Initial(Exclusive);
    var m := ParseXml(s, docs[0]);
    ParseXmlIntersects(s, docs[0], f, n);
    ParseXmlFlags(s, docs[0]);
    ExclusiveIntersection(m, docs[1..], f, n);
    assert LinesOf(s, f) == Empty();
  }
}
