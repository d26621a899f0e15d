/** The project element that toXml and build assemble: walking the sorted entries, a file
    without a package goes straight under the project, a file with one goes into that
    package's element (created on first sight), and a metrics entry is appended in place. */
module PackageGrouping {
  import opened Wrappers
  import opened OrderedMaps
  import opened CloverFile
  import CloverMetrics

  type Metrics = CloverMetrics.Metrics

  /** A file element of the output: its name and the file it renders. */
  datatype FileOut = FileOut(name: string, file: FileState)

  /** One entry of the sorted map being written out. */
  datatype Entry = FileEntry(out: FileOut) | MetricsEntry(metrics: Metrics)

  /** One child of the output project element. */
  datatype ProjectItem =
    | Unpackaged(file: FileOut)
    | Package(name: string, files: seq<FileOut>)
    | ProjectMetrics(metrics: Metrics)

  function PackageOf(e: Entry): Option<string> {
    if e.FileEntry? then e.out.file.packageName else None
  }

  /** The index of the package element called `p`, the first one if there were several. */
  function PackageIndex(items: seq<ProjectItem>, p: string): (r: Option<nat>)
    ensures r.Some? ==> r.value < |items| && items[r.value].Package? && items[r.value].name == p
    ensures r.None? ==> forall j :: 0 <= j < |items| ==> !(items[j].Package? && items[j].name == p)
  {
    if items == [] then None
    else if items[0].Package? && items[0].name == p then Some(0)
    else
      var r := PackageIndex(items[1..], p);
      if r.Some? then Some(r.value + 1) else None
  }

  /** One turn of the grouping loop. */
  function Place(items: seq<ProjectItem>, e: Entry): seq<ProjectItem> {
    match e
    case MetricsEntry(m) => items + [ProjectMetrics(m)]
    case FileEntry(f) =>
      match f.file.packageName
      case None => items + [Unpackaged(f)]
      case Some(p) =>
        match PackageIndex(items, p)
        case Some(k) => items[k := Package(p, items[k].files + [f])]
        case None => items + [Package(p, [f])]
  }

  /** The grouping loop over a whole sequence of entries. */
  function Group(es: seq<Entry>): seq<ProjectItem> {
    if es == [] then [] else Place(Group(es[..|es| - 1]), es[|es| - 1])
  }

  // Reference definitions

  /** The files of package `p`, in entry order. */
  function Members(es: seq<Entry>, p: string): seq<FileOut> {
    if es == [] then []
    else Members(es[..|es| - 1], p) + (if PackageOf(es[|es| - 1]) == Some(p) then [es[|es| - 1].out] else [])
  }

  /** The entries that open a new child of the project: metrics, files without a package,
      and the first file of each package. */
  function Firsts(es: seq<Entry>): seq<Entry> {
    if es == [] then []
    else
      var e := es[|es| - 1];
      Firsts(es[..|es| - 1])
      + (if PackageOf(e).None? || Members(es[..|es| - 1], PackageOf(e).value) == [] then [e] else [])
  }

  /** The entry each child of the project starts with. */
  function Head(item: ProjectItem): seq<Entry> {
    match item
    case Unpackaged(f) => [FileEntry(f)]
    case Package(_, fs) => if fs == [] then [] else [FileEntry(fs[0])]
    case ProjectMetrics(m) => [MetricsEntry(m)]
  }

  function Heads(items: seq<ProjectItem>): seq<Entry> {
    if items == [] then [] else Heads(items[..|items| - 1]) + Head(items[|items| - 1])
  }

  /** Unpackaged items hold files without a package. */
  predicate UnpackagedOk(items: seq<ProjectItem>) {
    forall j :: 0 <= j < |items| && items[j].Unpackaged? ==> items[j].file.file.packageName.None?
  }

  /** Each package item holds exactly the files of its package, in entry order. */
  predicate PackagesOk(es: seq<Entry>, items: seq<ProjectItem>) {
    forall j :: 0 <= j < |items| && items[j].Package? ==>
      items[j].files == Members(es, items[j].name) && items[j].files != []
  }

  /** No two package items share a name. */
  predicate NamesDistinct(items: seq<ProjectItem>) {
    forall j, k :: 0 <= j < k < |items| && items[j].Package? && items[k].Package? ==> items[j].name != items[k].name
  }

  /** A package item exists exactly for the packages seen. */
  ghost predicate IndexOk(es: seq<Entry>, items: seq<ProjectItem>) {
    forall p :: PackageIndex(items, p).Some? <==> Members(es, p) != []
  }

  /** What the grouping keeps true: the four properties above, and the children of the
      project appear in the order in which their first entry was met. */
  ghost predicate Grouped(es: seq<Entry>, items: seq<ProjectItem>) {
    && UnpackagedOk(items)
    && PackagesOk(es, items)
    && NamesDistinct(items)
    && IndexOk(es, items)
    && Heads(items) == Firsts(es)
  }

  lemma {:induction false} HeadsUpdate(items: seq<ProjectItem>, k: nat, x: ProjectItem)
    requires k < |items| && Head(x) == Head(items[k])
    ensures Heads(items[k := x]) == Heads(items)
    decreases |items|
  {
    var n := |items| - 1;
    if k < n {
      assert items[k := x][..n] == items[..n][k := x];
      HeadsUpdate(items[..n], k, x);
    } else {
      assert items[k := x][..n] == items[..n];
    }
  }

  lemma HeadsAppend(items: seq<ProjectItem>, x: ProjectItem)
    ensures Heads(items + [x]) == Heads(items) + Head(x)
  {
    assert (items + [x])[..|items|] == items;
  }

  lemma {:induction false} PackageIndexAppend(items: seq<ProjectItem>, x: ProjectItem, p: string)
    ensures PackageIndex(items + [x], p) ==
      if PackageIndex(items, p).Some? then PackageIndex(items, p)
      else if x.Package? && x.name == p then Some(|items|)
      else None
  {
    if items != [] {
      assert (items + [x])[1..] == items[1..] + [x];
      PackageIndexAppend(items[1..], x, p);
    }
  }

  lemma {:induction false} PackageIndexUpdate(items: seq<ProjectItem>, k: nat, x: ProjectItem, p: string)
    requires k < |items| && items[k].Package? && x.Package? && x.name == items[k].name
    ensures PackageIndex(items[k := x], p) == PackageIndex(items, p)
  {
    if k == 0 {
      assert items[k := x][1..] == items[1..];
    } else {
      assert items[k := x][1..] == items[1..][k - 1 := x];
      PackageIndexUpdate(items[1..], k - 1, x, p);
    }
  }

  lemma MembersAppend(es: seq<Entry>, e: Entry, p: string)
    ensures Members(es + [e], p) == Members(es, p) + (if PackageOf(e) == Some(p) then [e.out] else [])
  {
    assert (es + [e])[..|es|] == es;
  }

  lemma FirstsAppend(es: seq<Entry>, e: Entry)
    ensures Firsts(es + [e]) ==
      Firsts(es) + (if PackageOf(e).None? || Members(es, PackageOf(e).value) == [] then [e] else [])
  {
    assert (es + [e])[..|es|] == es;
  }

  lemma AppendsKeepMembers(es: seq<Entry>, e: Entry)
    requires PackageOf(e).None?
    ensures forall p :: Members(es + [e], p) == Members(es, p)
  {
    forall p ensures Members(es + [e], p) == Members(es, p) {
      MembersAppend(es, e, p);
    }
  }

  lemma AppendsOk(es: seq<Entry>, items: seq<ProjectItem>, e: Entry, x: ProjectItem)
    requires PackagesOk(es, items) && IndexOk(es, items) && NamesDistinct(items) && UnpackagedOk(items)
    requires PackageOf(e).None? && (x.ProjectMetrics? || (x.Unpackaged? && x.file.file.packageName.None?))
    ensures PackagesOk(es + [e], items + [x]) && IndexOk(es + [e], items + [x])
    ensures NamesDistinct(items + [x]) && UnpackagedOk(items + [x])
  {
    AppendsKeepMembers(es, e);
    forall p ensures PackageIndex(items + [x], p) == PackageIndex(items, p) {
      PackageIndexAppend(items, x, p);
    }
    var r := items + [x];
    forall j | 0 <= j < |r| && r[j].Package? ensures r[j].files == Members(es + [e], r[j].name) && r[j].files != [] {
      assert r[j] == items[j];
    }
  }

  /** A metrics entry or a file without a package opens a new child of the project. */
  lemma PlaceAppends(es: seq<Entry>, items: seq<ProjectItem>, e: Entry)
    requires Grouped(es, items) && PackageOf(e).None?
    ensures Grouped(es + [e], Place(items, e))
  {
    var x := if e.MetricsEntry? then ProjectMetrics(e.metrics) else Unpackaged(e.out);
    assert Place(items, e) == items + [x];
    assert Head(x) == [e];
    AppendsOk(es, items, e, x);
    assert Heads(items + [x]) == Firsts(es + [e]) by {
      FirstsAppend(es, e);
      HeadsAppend(items, x);
    }
  }

  lemma JoinsPackagesOk(es: seq<Entry>, items: seq<ProjectItem>, e: Entry, p: string, k: nat)
    requires PackagesOk(es, items) && NamesDistinct(items) && PackageOf(e) == Some(p)
    requires k < |items| && items[k].Package? && items[k].name == p
    ensures PackagesOk(es + [e], items[k := Package(p, items[k].files + [e.out])])
    ensures NamesDistinct(items[k := Package(p, items[k].files + [e.out])])
  {
    var r := items[k := Package(p, items[k].files + [e.out])];
    forall q ensures Members(es + [e], q) == Members(es, q) + (if q == p then [e.out] else []) {
      MembersAppend(es, e, q);
    }
    forall j | 0 <= j < |r| && r[j].Package? ensures r[j].files == Members(es + [e], r[j].name) && r[j].files != [] {
      if j != k {
        if j < k { assert items[j].name != items[k].name; } else { assert items[k].name != items[j].name; }
      }
    }
    forall j, j' | 0 <= j < j' < |r| && r[j].Package? && r[j'].Package?
      ensures r[j].name != r[j'].name
    {
      assert r[j].name == items[j].name && r[j'].name == items[j'].name;
    }
  }

  lemma JoinsIndexOk(es: seq<Entry>, items: seq<ProjectItem>, e: Entry, p: string, k: nat)
    requires IndexOk(es, items) && PackageOf(e) == Some(p) && PackageIndex(items, p) == Some(k)
    ensures IndexOk(es + [e], items[k := Package(p, items[k].files + [e.out])])
  {
    var x := Package(p, items[k].files + [e.out]);
    forall q ensures PackageIndex(items[k := x], q).Some? <==> Members(es + [e], q) != [] {
      PackageIndexUpdate(items, k, x, q);
      MembersAppend(es, e, q);
    }
  }

  lemma JoinsHeads(es: seq<Entry>, items: seq<ProjectItem>, e: Entry, p: string, k: nat)
    requires Heads(items) == Firsts(es) && IndexOk(es, items)
    requires PackageOf(e) == Some(p) && PackageIndex(items, p) == Some(k) && items[k].files != []
    ensures Heads(items[k := Package(p, items[k].files + [e.out])]) == Firsts(es + [e])
  {
    FirstsAppend(es, e);
    HeadsUpdate(items, k, Package(p, items[k].files + [e.out]));
    assert Members(es, p) != [];
  }

  /** A file of a package already seen joins that package's element. */
  lemma PlaceJoins(es: seq<Entry>, items: seq<ProjectItem>, e: Entry, p: string, k: nat)
    requires Grouped(es, items) && PackageOf(e) == Some(p) && PackageIndex(items, p) == Some(k)
    ensures Grouped(es + [e], Place(items, e))
  {
    var r := items[k := Package(p, items[k].files + [e.out])];
    assert Place(items, e) == r;
    JoinsPackagesOk(es, items, e, p, k);
    JoinsIndexOk(es, items, e, p, k);
    JoinsHeads(es, items, e, p, k);
    assert UnpackagedOk(r) by {
      forall j | 0 <= j < |r| && r[j].Unpackaged? ensures r[j].file.file.packageName.None? {
        assert r[j] == items[j];
      }
    }
  }

  lemma OpensPackagesOk(es: seq<Entry>, items: seq<ProjectItem>, e: Entry, p: string)
    requires PackagesOk(es, items) && IndexOk(es, items) && PackageOf(e) == Some(p) && PackageIndex(items, p).None?
    ensures PackagesOk(es + [e], items + [Package(p, [e.out])])
    ensures NamesDistinct(items) ==> NamesDistinct(items + [Package(p, [e.out])])
  {
    var r := items + [Package(p, [e.out])];
    forall q ensures Members(es + [e], q) == Members(es, q) + (if q == p then [e.out] else []) {
      MembersAppend(es, e, q);
    }
    forall j | 0 <= j < |r| && r[j].Package? ensures r[j].files == Members(es + [e], r[j].name) && r[j].files != [] {
      if j < |items| {
        assert r[j] == items[j];
        assert items[j].name != p;
      }
    }
    if NamesDistinct(items) {
      forall j, j' | 0 <= j < j' < |r| && r[j].Package? && r[j'].Package?
        ensures r[j].name != r[j'].name
      {
        assert r[j] == items[j];
      }
    }
  }

  lemma OpensIndexOk(es: seq<Entry>, items: seq<ProjectItem>, e: Entry, p: string)
    requires IndexOk(es, items) && PackageOf(e) == Some(p)
    ensures IndexOk(es + [e], items + [Package(p, [e.out])])
  {
    var x := Package(p, [e.out]);
    forall q ensures PackageIndex(items + [x], q).Some? <==> Members(es + [e], q) != [] {
      PackageIndexAppend(items, x, q);
      MembersAppend(es, e, q);
    }
  }

  /** The first file of a package opens a new package element. */
  lemma PlaceOpens(es: seq<Entry>, items: seq<ProjectItem>, e: Entry, p: string)
    requires Grouped(es, items) && PackageOf(e) == Some(p) && PackageIndex(items, p).None?
    ensures Grouped(es + [e], Place(items, e))
  {
    var x := Package(p, [e.out]);
    var r := items + [x];
    assert Place(items, e) == r;
    OpensPackagesOk(es, items, e, p);
    OpensIndexOk(es, items, e, p);
    assert Heads(r) == Firsts(es + [e]) by {
      assert Members(es, p) == [];
      FirstsAppend(es, e);
      HeadsAppend(items, x);
    }
    assert UnpackagedOk(r) by {
      forall j | 0 <= j < |r| && r[j].Unpackaged? ensures r[j].file.file.packageName.None? {
        assert r[j] == items[j];
      }
    }
  }

  /** One turn of the loop keeps the grouping invariant. */
  lemma PlaceGrouped(es: seq<Entry>, items: seq<ProjectItem>, e: Entry)
    requires Grouped(es, items)
    ensures Grouped(es + [e], Place(items, e))
  {
    if PackageOf(e).None? {
      PlaceAppends(es, items, e);
    } else {
      var p := PackageOf(e).value;
      match PackageIndex(items, p)
      case Some(k) => PlaceJoins(es, items, e, p, k);
      case None => PlaceOpens(es, items, e, p);
    }
  }

  /** The grouping loop establishes the invariant for every sequence of entries. */
  lemma {:induction false} GroupGrouped(es: seq<Entry>)
    ensures Grouped(es, Group(es))
  {
    if es != [] {
      var n := |es| - 1;
      GroupGrouped(es[..n]);
      PlaceGrouped(es[..n], Group(es[..n]), es[n]);
      assert es[..n] + [es[n]] == es;
    }
  }

  /** `packages` maps each package name to the index of its element among `items`. */
  ghost predicate IndexAgrees(items: seq<ProjectItem>, packages: map<string, nat>) {
    && (forall p :: p in packages <==> PackageIndex(items, p).Some?)
    && (forall p :: p in packages ==> PackageIndex(items, p) == Some(packages[p]))
  }

  /** One turn of the grouping loop of toXml and build, with the map from package names to
      their elements kept in step. */
  method PlaceEntry(items: seq<ProjectItem>, packages: map<string, nat>, e: Entry)
    returns (items': seq<ProjectItem>, packages': map<string, nat>)
    requires IndexAgrees(items, packages)
    ensures items' == Place(items, e) && IndexAgrees(items', packages')
  {
    packages' := packages;
    if e.MetricsEntry? {
      forall p ensures PackageIndex(items + [ProjectMetrics(e.metrics)], p) == PackageIndex(items, p) {
        PackageIndexAppend(items, ProjectMetrics(e.metrics), p);
      }
      items' := items + [ProjectMetrics(e.metrics)];
      return;
    }
    var out := e.out;
    var packageName := out.file.packageName;
    if packageName.None? {
      forall p ensures PackageIndex(items + [Unpackaged(out)], p) == PackageIndex(items, p) {
        PackageIndexAppend(items, Unpackaged(out), p);
      }
      items' := items + [Unpackaged(out)];
    } else if packageName.value in packages {
      var k := packages[packageName.value];
      var x := Package(packageName.value, items[k].files + [out]);
      forall p ensures PackageIndex(items[k := x], p) == PackageIndex(items, p) {
        PackageIndexUpdate(items, k, x, p);
      }
      items' := items[k := x];
    } else {
      var x := Package(packageName.value, [out]);
      forall p ensures PackageIndex(items + [x], p) ==
        (if p == packageName.value then Some(|items|) else PackageIndex(items, p))
      {
        PackageIndexAppend(items, x, p);
      }
      packages' := packages[packageName.value := |items|];
      items' := items + [x];
    }
  }
}
