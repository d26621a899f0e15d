/** Which package a file ends up in, and how often a nameless package is warned about. A
    package without a name still has its children read, under no package name; a file keeps
    the first package name any of its elements was read under. */
module AccumulatorPackages {
  import opened Wrappers
  import opened OrderedMaps
  import opened Xml
  import opened CloverFile
  import opened AccumulatorModel
  import opened AccumulatorProperties

  // ---------------------------------------------------------------------------
  // Reference definitions

  /** The package name of the file held under `f`, none when there is no such file. */
  function HeldPackage(s: AccState, f: string): Option<string> {
    if f in s.files.values then s.files.values[f].packageName else None
  }

  /** The first package name that a file element named `f` is read under, reading packages
      depth first; a file directly under a project or inside a nameless package has none. */
  function ItemPackage(e: Elem, pkg: Option<string>, f: string): Option<string>
    decreases e, 1, 0
  {
    if e.name == "package" then ItemsPackage(e, NameOf(e), 0, f)
    else if e.name == "file" && NameOf(e) == Some(f) then pkg
    else None
  }

  function ItemsPackage(parent: Elem, pkg: Option<string>, i: nat, f: string): Option<string>
    requires i <= |parent.children|
    decreases parent, 0, |parent.children| - i
  {
    if i == |parent.children| then None
    else OrElse(ItemPackage(parent.children[i], pkg, f), ItemsPackage(parent, pkg, i + 1, f))
  }

  function ProjectsPackage(doc: Elem, i: nat, f: string): Option<string>
    requires i <= |doc.children|
    decreases |doc.children| - i
  {
    if i == |doc.children| then None
    else
      var p := doc.children[i];
      OrElse(if p.name == "project" then ItemsPackage(p, None, 0, f) else None, ProjectsPackage(doc, i + 1, f))
  }

  function DocPackage(doc: Elem, f: string): Option<string> {
    if doc.name == "coverage" then ProjectsPackage(doc, 0, f) else None
  }

  function DocsPackage(docs: seq<Elem>, f: string): Option<string> {
    if docs == [] then None else OrElse(DocPackage(docs[0], f), DocsPackage(docs[1..], f))
  }

  /** The number of package elements without a name, counted through nested packages. */
  function ItemNameless(e: Elem): nat
    decreases e, 1, 0
  {
    if e.name == "package" then (if NameOf(e).None? then 1 else 0) + ItemsNameless(e, 0) else 0
  }

  function ItemsNameless(parent: Elem, i: nat): nat
    requires i <= |parent.children|
    decreases parent, 0, |parent.children| - i
  {
    if i == |parent.children| then 0 else ItemNameless(parent.children[i]) + ItemsNameless(parent, i + 1)
  }

  function ProjectsNameless(doc: Elem, i: nat): nat
    requires i <= |doc.children|
    decreases |doc.children| - i
  {
    if i == |doc.children| then 0
    else
      var p := doc.children[i];
      (if p.name == "project" then ItemsNameless(p, 0) else 0) + ProjectsNameless(doc, i + 1)
  }

  function DocNameless(doc: Elem): nat {
    if doc.name == "coverage" then ProjectsNameless(doc, 0) else 0
  }

  function DocsNameless(docs: seq<Elem>): nat {
    if docs == [] then 0 else DocNameless(docs[0]) + DocsNameless(docs[1..])
  }

  /** How many times a log holds the nameless-package warning. */
  function Warned(log: seq<string>): nat {
    multiset(log)[PackageWithoutName]
  }

  // ---------------------------------------------------------------------------
  // Package names

  /** Reading content whose first package name for `f` is `p` into `s` gave `r`: no file is
      lost, no file appears while locked, a file present afterwards keeps its earlier package
      name or else takes `p`, and a file still absent had no element or was locked out. */
  predicate KeepsPackage(s: AccState, r: AccState, f: string, p: Option<string>) {
    && (f in s.files.values ==> f in r.files.values)
    && (s.lockLines && f in r.files.values ==> f in s.files.values)
    && (f in r.files.values ==> r.files.values[f].packageName == OrElse(HeldPackage(s, f), p))
    && (f !in r.files.values ==> p.None? || s.lockLines)
  }

  lemma KeepsPackageTrans(s: AccState, m: AccState, r: AccState, f: string, p1: Option<string>, p2: Option<string>)
    requires KeepsPackage(s, m, f, p1) && KeepsPackage(m, r, f, p2) && m.lockLines == s.lockLines
    ensures KeepsPackage(s, r, f, OrElse(p1, p2))
  {
  }

  /** One file element: a new file takes the package name it is read under; a held file keeps
      its own name, or takes that one when it had none. */
  lemma FileStepPackage(s: AccState, e: Elem, pkg: Option<string>, f: string)
    requires e.name == "file"
    ensures KeepsPackage(s, ParseFile(s, e, pkg), f, ItemPackage(e, pkg, f))
  {
    if NameOf(e) == Some(f) {
      FromXmlFacts(e, pkg, 0);
    }
  }

  lemma {:induction false} ItemKeepsPackage(s: AccState, e: Elem, pkg: Option<string>, f: string)
    ensures KeepsPackage(s, ParseItem(s, e, pkg), f, ItemPackage(e, pkg, f))
    decreases e, 1, 0
  {
    if e.name == "package" {
      var s' := if NameOf(e).Some? then s else s.(log := s.log + [PackageWithoutName]);
      ItemsKeepPackage(s', e, NameOf(e), 0, f);
    } else if e.name == "file" {
      FileStepPackage(s, e, pkg, f);
    }
  }

  lemma {:induction false} ItemsKeepPackage(s: AccState, parent: Elem, pkg: Option<string>, i: nat, f: string)
    requires i <= |parent.children|
    ensures KeepsPackage(s, ParseItems(s, parent, pkg, i), f, ItemsPackage(parent, pkg, i, f))
    decreases parent, 0, |parent.children| - i
  {
    if i < |parent.children| {
      var c := parent.children[i];
      var m := ParseItem(s, c, pkg);
      ItemKeepsPackage(s, c, pkg, f);
      ItemFlags(s, c, pkg);
      ItemsKeepPackage(m, parent, pkg, i + 1, f);
      KeepsPackageTrans(s, m, ParseItems(m, parent, pkg, i + 1), f, ItemPackage(c, pkg, f), ItemsPackage(parent, pkg, i + 1, f));
    }
  }

  lemma {:induction false} ProjectsKeepPackage(s: AccState, doc: Elem, i: nat, f: string)
    requires i <= |doc.children|
    ensures KeepsPackage(s, ParseProjects(s, doc, i), f, ProjectsPackage(doc, i, f))
    decreases |doc.children| - i
  {
    if i < |doc.children| {
      var p := doc.children[i];
      var m := ParseProject(s, p);
      if p.name == "project" {
        ItemsKeepPackage(s, p, None, 0, f);
        ItemsFlags(s, p, None, 0);
      }
      ProjectsKeepPackage(m, doc, i + 1, f);
      KeepsPackageTrans(s, m, ParseProjects(m, doc, i + 1), f,
        if p.name == "project" then ItemsPackage(p, None, 0, f) else None, ProjectsPackage(doc, i + 1, f));
    }
  }

  /** One document: no held file is lost; a file present afterwards keeps its package name or
      else takes the first one the document reads it under; a file the document names under a
      package is absent afterwards only when lines are locked or exclusive mode drops it. */
  lemma {:induction false} ParseXmlPackage(s: AccState, doc: Elem, f: string)
    ensures f in s.files.values ==> f in ParseXml(s, doc).files.values
    ensures f in ParseXml(s, doc).files.values ==>
              ParseXml(s, doc).files.values[f].packageName == OrElse(HeldPackage(s, f), DocPackage(doc, f))
    ensures f !in ParseXml(s, doc).files.values ==>
              DocPackage(doc, f).None? || s.lockLines || (s.mode == Exclusive && !s.empty)
  {
    if doc.name == "coverage" {
      ProjectsKeepPackage(s, doc, 0, f);
      ProjectsFlags(s, doc, 0);
    }
  }

  /** Once lines are locked no document brings in a file. */
  lemma {:induction false} LockedAddsNoFiles(s: AccState, docs: seq<Elem>, f: string)
    requires s.lockLines
    ensures f in ParseAll(s, docs).files.values ==> f in s.files.values
    decreases |docs|
  {
    if docs != [] {
      ParseXmlFiles(s, docs[0], f, 0);
      if docs[0].name == "coverage" { ParseXmlFlags(s, docs[0]); }
      LockedAddsNoFiles(ParseXml(s, docs[0]), docs[1..], f);
    }
  }

  /** A whole run, every mode: a file's package name is the first one any of its elements was
      read under (its own, if it was held already); a file only ever met directly under a
      project or in nameless packages has none. */
  lemma {:induction false} PackageFirstNonNull(s: AccState, docs: seq<Elem>, f: string)
    ensures f in ParseAll(s, docs).files.values ==>
              ParseAll(s, docs).files.values[f].packageName == OrElse(HeldPackage(s, f), DocsPackage(docs, f))
    decreases |docs|
  {
    if docs != [] {
      var d := docs[0];
      var m := ParseXml(s, d);
      ParseXmlPackage(s, d, f);
      PackageFirstNonNull(m, docs[1..], f);
      if f in ParseAll(m, docs[1..]).files.values && f !in m.files.values {
        if d.name == "coverage" { ParseXmlFlags(s, d); }
        if DocPackage(d, f).Some? {
          if s.lockLines {
            LockedAddsNoFiles(m, docs[1..], f);
          } else {
            ExclusiveKeepsFiles(m, docs[1..], f);
          }
          assert false;
        }
      }
    }
  }

  // ---------------------------------------------------------------------------
  // The nameless-package warning

  lemma NotNamelessWarning(name: string)
    ensures Unexpected(name) != PackageWithoutName
    ensures "Ignoring unknown element: " + name + "." != PackageWithoutName
  {
    assert Unexpected(name)[9] == 'u';
    assert ("Ignoring unknown element: " + name + ".")[9] == 'u';
  }

  /** No warning reading a file's children is the nameless-package one. */
  lemma {:induction false} FileWarningsNotNameless(cs: seq<Elem>)
    ensures Warned(Warnings(cs)) == 0
    decreases |cs|
  {
    if cs != [] {
      NotNamelessWarning(cs[0].name);
      FileWarningsNotNameless(cs[1..]);
    }
  }

  lemma {:induction false} ItemWarnsNameless(s: AccState, e: Elem, pkg: Option<string>)
    ensures Warned(ParseItem(s, e, pkg).log) == Warned(s.log) + ItemNameless(e)
    decreases e, 1, 0
  {
    if e.name == "package" {
      var s' := if NameOf(e).Some? then s else s.(log := s.log + [PackageWithoutName]);
      ItemsWarnNameless(s', e, NameOf(e), 0);
    } else if e.name == "file" {
      if NameOf(e).Some? {
        FromXmlFacts(e, pkg, 0);
        FileWarningsNotNameless(e.children);
      }
    } else if e.name != "metrics" {
      NotNamelessWarning(e.name);
    }
  }

  lemma {:induction false} ItemsWarnNameless(s: AccState, parent: Elem, pkg: Option<string>, i: nat)
    requires i <= |parent.children|
    ensures Warned(ParseItems(s, parent, pkg, i).log) == Warned(s.log) + ItemsNameless(parent, i)
    decreases parent, 0, |parent.children| - i
  {
    if i < |parent.children| {
      ItemWarnsNameless(s, parent.children[i], pkg);
      ItemsWarnNameless(ParseItem(s, parent.children[i], pkg), parent, pkg, i + 1);
    }
  }

  lemma {:induction false} ProjectsWarnNameless(s: AccState, doc: Elem, i: nat)
    requires i <= |doc.children|
    ensures Warned(ParseProjects(s, doc, i).log) == Warned(s.log) + ProjectsNameless(doc, i)
    decreases |doc.children| - i
  {
    if i < |doc.children| {
      var p := doc.children[i];
      if p.name == "project" { ItemsWarnNameless(s, p, None, 0); } else { NotNamelessWarning(p.name); }
      ProjectsWarnNameless(ParseProject(s, p), doc, i + 1);
    }
  }

  /** A whole run, every mode: the nameless-package warning is logged once for every package
      element without a name, nested ones included, and for nothing else. */
  lemma {:induction false} NamelessWarnedOnce(s: AccState, docs: seq<Elem>)
    ensures Warned(ParseAll(s, docs).log) == Warned(s.log) + DocsNameless(docs)
    decreases |docs|
  {
    if docs != [] {
      if docs[0].name == "coverage" { ProjectsWarnNameless(s, docs[0], 0); } else { NotNamelessWarning(docs[0].name); }
      NamelessWarnedOnce(ParseXml(s, docs[0]), docs[1..]);
    }
  }
}
