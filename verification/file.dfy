/** File: the classes and lines recorded for one source file, its package name, the
    merge-mode rules for combining two records of the same file, and the metric tally. */
module CloverFile {
  import opened Wrappers
  import opened OrderedMaps
  import opened Xml
  import CloverClass
  import CloverLine

  type ClassT = CloverClass.ClassT
  type LineState = CloverLine.LineState

  /** The three merge policies, selected once per run. */
  datatype MergeMode = Inclusive | Exclusive | Additive

  /** The value of a File: its fields at one moment. */
  datatype FileState = FileState(
    classes: OMap<string, ClassT>,
    lines: OMap<int, LineState>,
    packageName: Option<string>)

  /** The hit count recorded for line `n`, 0 when there is none. */
  function CountAt(lines: OMap<int, LineState>, n: int): int {
    if n in lines.values then lines.values[n].count else 0
  }

  // ---------------------------------------------------------------------------
  // Specification of mergeClass, mergeLine and merge

  /** File::mergeClass: an absent name is added last; a present name is never replaced. */
  function AddClass(classes: OMap<string, ClassT>, name: string, c: ClassT): (r: OMap<string, ClassT>)
    ensures name in classes.values ==> r == classes
    ensures name !in classes.values ==> r.keys == classes.keys + [name] && r.values == classes.values[name := c]
  {
    if name in classes.values then classes else Put(classes, name, c)
  }

  /** File::mergeLine: an existing number is merged into its line; a new number is added
      only when lines are not locked. */
  function AddLine(lines: OMap<int, LineState>, n: int, line: LineState, lock: bool): OMap<int, LineState> {
    if n in lines.values then Put(lines, n, CloverLine.LineMerge(lines.values[n], line))
    else if !lock then Put(lines, n, line)
    else lines
  }

  /** With lines locked, mergeLine never changes the set of line numbers; without the lock it
      adds exactly `n`. The line at `n` is the merge of the old one with `line`, or `line`. */
  lemma AddLineKeys(lines: OMap<int, LineState>, n: int, line: LineState, lock: bool)
    ensures lock ==> AddLine(lines, n, line, lock).values.Keys == lines.values.Keys
    ensures !lock ==> AddLine(lines, n, line, lock).values.Keys == lines.values.Keys + {n}
    ensures n in lines.values ==> AddLine(lines, n, line, lock).values[n] == CloverLine.LineMerge(lines.values[n], line)
    ensures n !in lines.values && !lock ==> AddLine(lines, n, line, lock).values[n] == line
  {
  }

  /** The loop of File::merge over the incoming lines, from position `i` on. */
  function AddLines(lines: OMap<int, LineState>, incoming: OMap<int, LineState>, i: nat, lock: bool): OMap<int, LineState>
    requires i <= |incoming.keys|
    decreases |incoming.keys| - i
  {
    if i == |incoming.keys| then lines
    else
      var n := incoming.keys[i];
      AddLines(AddLine(lines, n, incoming.values[n], lock), incoming, i + 1, lock)
  }

  /** Which line numbers the incoming lines from position `i` on leave in place. */
  lemma {:induction false} AddLinesDomain(lines: OMap<int, LineState>, incoming: OMap<int, LineState>, i: nat, lock: bool, n: int)
    requires i <= |incoming.keys|
    ensures n in AddLines(lines, incoming, i, lock).values <==> n in lines.values || (!lock && n in incoming.keys[i..])
    decreases |incoming.keys| - i
  {
    if i < |incoming.keys| {
      var k := incoming.keys[i];
      AddLinesDomain(AddLine(lines, k, incoming.values[k], lock), incoming, i + 1, lock, n);
      AddLineKeys(lines, k, incoming.values[k], lock);
      assert incoming.keys[i..] == [k] + incoming.keys[i + 1..];
    }
  }

  /** The line left at number `n` by the incoming lines from position `i` on: the merge of
      both when both sides have it, otherwise the one side's line. */
  lemma {:induction false} AddLinesValue(lines: OMap<int, LineState>, incoming: OMap<int, LineState>, i: nat, lock: bool, n: int)
    requires i <= |incoming.keys| && n in AddLines(lines, incoming, i, lock).values
    ensures var r := AddLines(lines, incoming, i, lock);
      && (n in lines.values && n in incoming.keys[i..] ==>
            r.values[n] == CloverLine.LineMerge(lines.values[n], incoming.values[n]))
      && (n in lines.values && n !in incoming.keys[i..] ==> r.values[n] == lines.values[n])
      && (n !in lines.values ==> n in incoming.values && r.values[n] == incoming.values[n])
    decreases |incoming.keys| - i
  {
    AddLinesDomain(lines, incoming, i, lock, n);
    if i < |incoming.keys| {
      var k := incoming.keys[i];
      var next := AddLine(lines, k, incoming.values[k], lock);
      AddLinesValue(next, incoming, i + 1, lock, n);
      AddLineKeys(lines, k, incoming.values[k], lock);
      assert incoming.keys[i..] == [k] + incoming.keys[i + 1..];
      if n == k {
        assert k !in incoming.keys[i + 1..] by {
          forall j | i + 1 <= j < |incoming.keys| ensures incoming.keys[j] != k {}
        }
        assert n in next.values;
      } else {
        assert (n in next.values <==> n in lines.values) && (n in lines.values ==> next.values[n] == lines.values[n]);
      }
    }
  }

  /** File::merge: classes are `other`'s merged with `self`'s (self's entry wins, other's
      names come first), the package name is self's unless unset, and the lines follow the
      merge mode: in exclusive mode both sides are cut to the shared line numbers first. */
  function MergeState(self: FileState, other: FileState, mode: MergeMode, lock: bool): FileState {
    var classes := OrderedMaps.Merge(other.classes, self.classes);
    var packageName := if self.packageName.Some? then self.packageName else other.packageName;
    if mode == Exclusive then
      var mine := Intersect(self.lines, other.lines);
      FileState(classes, AddLines(mine, Intersect(other.lines, mine), 0, lock), packageName)
    else
      FileState(classes, AddLines(self.lines, other.lines, 0, lock), packageName)
  }

  /** The line numbers after a merge are the union (inclusive, additive while unlocked), the
      intersection (exclusive), or self's own (locked); a number both sides carry holds the
      merge of both lines, so its count is the sum. */
  lemma MergeLines(self: FileState, other: FileState, mode: MergeMode, lock: bool, n: int)
    ensures var r := MergeState(self, other, mode, lock).lines;
      && (n in r.values <==>
            if mode == Exclusive then n in self.lines.values && n in other.lines.values
            else n in self.lines.values || (!lock && n in other.lines.values))
      && (n in r.values && n in self.lines.values && n in other.lines.values ==>
            r.values[n] == CloverLine.LineMerge(self.lines.values[n], other.lines.values[n]))
      && (n in r.values && n in self.lines.values && n !in other.lines.values ==> r.values[n] == self.lines.values[n])
      && (n in r.values && n !in self.lines.values ==> r.values[n] == other.lines.values[n])
  {
    if mode == Exclusive {
      var mine := Intersect(self.lines, other.lines);
      var theirs := Intersect(other.lines, mine);
      AddLinesDomain(mine, theirs, 0, lock, n);
      if n in AddLines(mine, theirs, 0, lock).values {
        AddLinesValue(mine, theirs, 0, lock, n);
      }
      assert theirs.keys[0..] == theirs.keys;
    } else {
      AddLinesDomain(self.lines, other.lines, 0, lock, n);
      if n in AddLines(self.lines, other.lines, 0, lock).values {
        AddLinesValue(self.lines, other.lines, 0, lock, n);
      }
      assert other.lines.keys[0..] == other.lines.keys;
    }
  }

  /** Counts after an unlocked inclusive merge: every line number's count is the sum of both sides. */
  lemma MergeInclusiveCounts(self: FileState, other: FileState, n: int)
    ensures CountAt(MergeState(self, other, Inclusive, false).lines, n)
            == CountAt(self.lines, n) + CountAt(other.lines, n)
  {
    MergeLines(self, other, Inclusive, false, n);
  }

  /** Classes after a merge: the union of names, other's names first, self's ClassT kept on a clash. */
  lemma MergeClasses(self: FileState, other: FileState, mode: MergeMode, lock: bool)
    ensures var r := MergeState(self, other, mode, lock).classes;
      && r.values.Keys == self.classes.values.Keys + other.classes.values.Keys
      && (forall c :: c in self.classes.values ==> r.values[c] == self.classes.values[c])
      && (forall c :: c in other.classes.values && c !in self.classes.values ==> r.values[c] == other.classes.values[c])
      && r.keys[..|other.classes.keys|] == other.classes.keys
  {
  }

  /** The package name after a merge: self's if set, otherwise other's. */
  lemma MergePackage(self: FileState, other: FileState, mode: MergeMode, lock: bool)
    ensures self.packageName.Some? ==> MergeState(self, other, mode, lock).packageName == self.packageName
    ensures self.packageName.None? ==> MergeState(self, other, mode, lock).packageName == other.packageName
  {
  }

  /** The line loop of File::merge: each incoming line, in order, goes through mergeLine. */
  method MergeLinesLoop(lines: OMap<int, LineState>, incoming: OMap<int, LineState>, lock: bool)
    returns (r: OMap<int, LineState>)
    ensures r == AddLines(lines, incoming, 0, lock)
  {
    r := lines;
    for i := 0 to |incoming.keys|
      invariant AddLines(r, incoming, i, lock) == AddLines(lines, incoming, 0, lock)
    {
      var n := incoming.keys[i];
      r := AddLine(r, n, incoming.values[n], lock);
    }
  }

  // ---------------------------------------------------------------------------
  // Specification of fromXML / parseChildXML

  /** A file being read, with the warnings logged so far. */
  datatype Parse = Parse(file: FileState, log: seq<string>)

  const ClassWithoutName := "Ignoring class with no name."
  const LineWithoutNumOrCount := "Ignoring line with no num or count."

  predicate IsCountedLine(c: Elem) { c.name == "line" && HasAttributes(c, ["num", "count"]) }

  /** File::parseChildXML: classes and lines are merged in; a nameless class, a line without
      num or count and an unknown element are skipped with a warning; metrics are ignored. */
  function ParseChild(p: Parse, child: Elem): Parse {
    if child.name == "class" then
      if !HasAttributes(child, ["name"]) then Parse(p.file, p.log + [ClassWithoutName])
      else
        assert "name" in ["name"];
        var classes := AddClass(p.file.classes, child.attributes.values["name"], CloverClass.FromXml(child));
        Parse(p.file.(classes := classes), p.log)
    else if child.name == "metrics" then p
    else if child.name == "line" then
      if !HasAttributes(child, ["num", "count"]) then Parse(p.file, p.log + [LineWithoutNumOrCount])
      else
        assert "num" in ["num", "count"] && "count" in ["num", "count"];
        var n := PhpInt(child.attributes.values["num"]);
        Parse(p.file.(lines := AddLine(p.file.lines, n, CloverLine.LineFromXml(child).value, false)), p.log)
    else Parse(p.file, p.log + ["Ignoring unknown element: " + child.name + "."])
  }

  /** The children of `e` from position `i` on, read in order. */
  function ParseChildren(p: Parse, e: Elem, i: nat): Parse
    requires i <= |e.children|
    decreases |e.children| - i
  {
    if i == |e.children| then p else ParseChildren(ParseChild(p, e.children[i]), e, i + 1)
  }

  /** File::fromXML: a fresh file with the given package name, then every child read in order. */
  function FileFromXml(e: Elem, packageName: Option<string>): Parse {
    ParseChildren(Parse(FileState(Empty(), Empty(), packageName), []), e, 0)
  }

  // Reference definitions of what a file element holds, independent of the parse.

  /** The warning a child earns, if any. */
  function ChildWarnings(c: Elem): seq<string> {
    if c.name == "class" then (if HasAttributes(c, ["name"]) then [] else [ClassWithoutName])
    else if c.name == "metrics" then []
    else if c.name == "line" then (if HasAttributes(c, ["num", "count"]) then [] else [LineWithoutNumOrCount])
    else ["Ignoring unknown element: " + c.name + "."]
  }

  function Warnings(cs: seq<Elem>): seq<string> {
    if cs == [] then [] else ChildWarnings(cs[0]) + Warnings(cs[1..])
  }

  /** The line number a counted line element gives. */
  function LineNumber(c: Elem): int
    requires IsCountedLine(c)
  {
    assert "num" in ["num", "count"];
    PhpInt(c.attributes.values["num"])
  }

  /** The count a counted line element gives. */
  function LineCount(c: Elem): int
    requires IsCountedLine(c)
  {
    assert "count" in ["num", "count"];
    PhpInt(c.attributes.values["count"])
  }

  /** Does some counted line among `cs` have number `n`? */
  predicate MentionsLine(cs: seq<Elem>, n: int) {
    cs != [] && ((IsCountedLine(cs[0]) && LineNumber(cs[0]) == n) || MentionsLine(cs[1..], n))
  }

  /** The sum of the counts of the counted lines among `cs` with number `n`. */
  function LineTotal(cs: seq<Elem>, n: int): int {
    if cs == [] then 0
    else (if IsCountedLine(cs[0]) && LineNumber(cs[0]) == n then LineCount(cs[0]) else 0) + LineTotal(cs[1..], n)
  }

  /** One child keeps the package name and appends its own warning. */
  lemma ParseChildPackageAndLog(p: Parse, c: Elem)
    ensures ParseChild(p, c).file.packageName == p.file.packageName
    ensures ParseChild(p, c).log == p.log + ChildWarnings(c)
  {
  }

  /** One child adds its line number, if it is a counted line, with its count. */
  lemma ParseChildLines(p: Parse, c: Elem, n: int)
    ensures n in ParseChild(p, c).file.lines.values <==>
              n in p.file.lines.values || (IsCountedLine(c) && LineNumber(c) == n)
    ensures CountAt(ParseChild(p, c).file.lines, n) ==
              CountAt(p.file.lines, n) + (if IsCountedLine(c) && LineNumber(c) == n then LineCount(c) else 0)
  {
    if IsCountedLine(c) {
      var line := CloverLine.LineFromXml(c).value;
      assert ParseChild(p, c).file.lines == AddLine(p.file.lines, LineNumber(c), line, false);
      AddLineKeys(p.file.lines, LineNumber(c), line, false);
    } else {
      assert ParseChild(p, c).file.lines == p.file.lines;
    }
  }

  /** Reading children never changes the package name and appends exactly their warnings. */
  lemma {:induction false} ParseChildrenPackageAndLog(p: Parse, e: Elem, i: nat)
    requires i <= |e.children|
    ensures ParseChildren(p, e, i).file.packageName == p.file.packageName
    ensures ParseChildren(p, e, i).log == p.log + Warnings(e.children[i..])
    decreases |e.children| - i
  {
    if i < |e.children| {
      ParseChildPackageAndLog(p, e.children[i]);
      ParseChildrenPackageAndLog(ParseChild(p, e.children[i]), e, i + 1);
      assert e.children[i..][1..] == e.children[i + 1..];
    }
  }

  /** Reading children adds exactly the mentioned line numbers and sums their counts. */
  lemma {:induction false} ParseChildrenLines(p: Parse, e: Elem, i: nat, n: int)
    requires i <= |e.children|
    ensures n in ParseChildren(p, e, i).file.lines.values <==> n in p.file.lines.values || MentionsLine(e.children[i..], n)
    ensures CountAt(ParseChildren(p, e, i).file.lines, n) == CountAt(p.file.lines, n) + LineTotal(e.children[i..], n)
    decreases |e.children| - i
  {
    if i < |e.children| {
      ParseChildLines(p, e.children[i], n);
      ParseChildrenLines(ParseChild(p, e.children[i]), e, i + 1, n);
      assert e.children[i..][1..] == e.children[i + 1..];
    }
  }

  /** File::fromXML keeps the given package name, keys its lines by `num` with the summed
      counts of the line elements, and logs one warning per skipped child. */
  lemma FromXmlFacts(e: Elem, packageName: Option<string>, n: int)
    ensures FileFromXml(e, packageName).file.packageName == packageName
    ensures FileFromXml(e, packageName).log == Warnings(e.children)
    ensures n in FileFromXml(e, packageName).file.lines.values <==> MentionsLine(e.children, n)
    ensures CountAt(FileFromXml(e, packageName).file.lines, n) == LineTotal(e.children, n)
  {
    var p := Parse(FileState(Empty(), Empty(), packageName), []);
    ParseChildrenPackageAndLog(p, e, 0);
    ParseChildrenLines(p, e, 0, n);
    assert e.children[0..] == e.children;
  }

  // ---------------------------------------------------------------------------
  // Specification of the metric tally of toXml

  /** The six line counters of a file's metrics. */
  datatype Counters = Counters(
    statements: nat, coveredStatements: nat,
    conditionals: nat, coveredConditionals: nat,
    methods: nat, coveredMethods: nat)

  /** The metrics toXml computes for a file: line counters, class entries, one file. */
  datatype FileMetrics = FileMetrics(counters: Counters, classes: nat, files: nat)

  /** A line's `type` property, `stmt` when it has none. */
  function LineType(l: LineState): string {
    if "type" in l.properties.values then l.properties.values["type"] else "stmt"
  }

  /** One turn of the tally loop: a line of a known type counts in its bucket, and as covered
      when its count is positive; a line of any other type counts nowhere. */
  function Step(c: Counters, l: LineState): Counters {
    var hit := if l.count > 0 then 1 else 0;
    var t := LineType(l);
    if t == "method" then c.(methods := c.methods + 1, coveredMethods := c.coveredMethods + hit)
    else if t == "stmt" then c.(statements := c.statements + 1, coveredStatements := c.coveredStatements + hit)
    else if t == "cond" then c.(conditionals := c.conditionals + 1, coveredConditionals := c.coveredConditionals + hit)
    else c
  }

  function TallyOf(ls: seq<LineState>): Counters {
    if ls == [] then Counters(0, 0, 0, 0, 0, 0) else Step(TallyOf(ls[..|ls| - 1]), ls[|ls| - 1])
  }

  predicate KnownType(t: string) { t == "method" || t == "stmt" || t == "cond" }

  function TypeWarning(l: LineState): seq<string> {
    if KnownType(LineType(l)) then [] else ["Ignoring unexpected line type: " + LineType(l) + "."]
  }

  function TypeWarnings(ls: seq<LineState>): seq<string> {
    if ls == [] then []
    else TypeWarnings(ls[..|ls| - 1]) + TypeWarning(ls[|ls| - 1])
  }

  lemma TallyPrefix(ls: seq<LineState>, i: nat)
    requires i < |ls|
    ensures TallyOf(ls[..i + 1]) == Step(TallyOf(ls[..i]), ls[i])
    ensures TypeWarnings(ls[..i + 1]) == TypeWarnings(ls[..i]) + TypeWarning(ls[i])
  {
    assert ls[..i + 1][..i] == ls[..i];
  }

  /** The lines of a map in iteration order. */
  function LinesInOrder(lines: OMap<int, LineState>): (ls: seq<LineState>)
    ensures |ls| == |lines.keys|
    ensures forall i :: 0 <= i < |ls| ==> ls[i] == lines.values[lines.keys[i]]
  {
    seq(|lines.keys|, i requires 0 <= i < |lines.keys| => lines.values[lines.keys[i]])
  }

  function MetricsOf(f: FileState): FileMetrics {
    FileMetrics(TallyOf(LinesInOrder(f.lines)), |f.classes.keys|, 1)
  }

  /** Reference count: the lines of type `t`, or those of type `t` with a positive count. */
  function CountType(ls: seq<LineState>, t: string, coveredOnly: bool): (r: nat)
    ensures r <= |ls|
  {
    if ls == [] then 0
    else CountType(ls[..|ls| - 1], t, coveredOnly)
         + (if LineType(ls[|ls| - 1]) == t && (!coveredOnly || ls[|ls| - 1].count > 0) then 1 else 0)
  }

  /** Each counter is the number of lines of its type (and covered, for the covered ones). */
  lemma {:induction false} TallyCountsTypes(ls: seq<LineState>)
    ensures TallyOf(ls) == Counters(
      CountType(ls, "stmt", false), CountType(ls, "stmt", true),
      CountType(ls, "cond", false), CountType(ls, "cond", true),
      CountType(ls, "method", false), CountType(ls, "method", true))
  {
    if ls != [] {
      TallyCountsTypes(ls[..|ls| - 1]);
    }
  }

  lemma {:induction false} CoveredAtMostTotal(ls: seq<LineState>, t: string)
    ensures CountType(ls, t, true) <= CountType(ls, t, false)
  {
    if ls != [] {
      CoveredAtMostTotal(ls[..|ls| - 1], t);
    }
  }

  /** Covered never exceeds total, in each of method, stmt and cond. */
  lemma TallyBounded(ls: seq<LineState>)
    ensures TallyOf(ls).coveredStatements <= TallyOf(ls).statements
    ensures TallyOf(ls).coveredConditionals <= TallyOf(ls).conditionals
    ensures TallyOf(ls).coveredMethods <= TallyOf(ls).methods
  {
    TallyCountsTypes(ls);
    CoveredAtMostTotal(ls, "stmt");
    CoveredAtMostTotal(ls, "cond");
    CoveredAtMostTotal(ls, "method");
  }

  /** Every line is counted once or warned about once: lines of unknown type are excluded. */
  lemma {:induction false} TallyPartition(ls: seq<LineState>)
    ensures TallyOf(ls).statements + TallyOf(ls).conditionals + TallyOf(ls).methods + |TypeWarnings(ls)| == |ls|
  {
    if ls != [] {
      TallyPartition(ls[..|ls| - 1]);
    }
  }

  /** A line without a `type` property counts as a statement. */
  lemma UntypedIsStatement(ls: seq<LineState>, l: LineState)
    requires "type" !in l.properties.values
    ensures TallyOf(ls + [l]).statements == TallyOf(ls).statements + 1
    ensures TallyOf(ls + [l]).coveredStatements == TallyOf(ls).coveredStatements + (if l.count > 0 then 1 else 0)
  {
    assert (ls + [l])[..|ls + [l]| - 1] == ls;
  }

  /** One turn of the counting loop of File::toXml. */
  method CountLine(c: Counters, line: LineState) returns (c': Counters, warning: seq<string>)
    ensures c' == Step(c, line) && warning == TypeWarning(line)
  {
    var covered := line.count > 0;
    var t := if "type" in line.properties.values then line.properties.values["type"] else "stmt";
    c', warning := c, [];
    if t == "method" {
      c' := c'.(methods := c'.methods + 1);
      if covered { c' := c'.(coveredMethods := c'.coveredMethods + 1); }
    } else if t == "stmt" {
      c' := c'.(statements := c'.statements + 1);
      if covered { c' := c'.(coveredStatements := c'.coveredStatements + 1); }
    } else if t == "cond" {
      c' := c'.(conditionals := c'.conditionals + 1);
      if covered { c' := c'.(coveredConditionals := c'.coveredConditionals + 1); }
    } else {
      warning := ["Ignoring unexpected line type: " + t + "."];
    }
  }

  // ---------------------------------------------------------------------------
  // The File object

  class File {
    var classes: OMap<string, ClassT>
    var lines: OMap<int, LineState>
    var packageName: Option<string>

    function State(): FileState
      reads this
    {
      FileState(classes, lines, packageName)
    }

    /** File::__construct: no classes, no lines, the given package name. */
    constructor (packageName: Option<string>)
      ensures State() == FileState(Empty(), Empty(), packageName)
    {
      classes := Empty();
      lines := Empty();
      this.packageName := packageName;
    }

    /** File::fromXML */
    static method FromXml(e: Elem, packageName: Option<string>) returns (file: File, log: seq<string>)
      ensures fresh(file)
      ensures Parse(file.State(), log) == FileFromXml(e, packageName)
    {
      file := new File(packageName);
      log := [];
      for i := 0 to |e.children|
        invariant ParseChildren(Parse(file.State(), log), e, i) == FileFromXml(e, packageName)
      {
        log := file.ParseChildXml(e.children[i], log);
      }
    }

    /** File::parseChildXML, with the warning log threaded through. */
    method ParseChildXml(child: Elem, log: seq<string>) returns (log': seq<string>)
      modifies this
      ensures Parse(State(), log') == ParseChild(Parse(old(State()), log), child)
    {
      log' := log;
      if child.name == "class" {
        if !HasAttributes(child, ["name"]) {
          log' := log + [ClassWithoutName];
          return;
        }
        assert "name" in ["name"];
        MergeClass(child.attributes.values["name"], CloverClass.FromXml(child));
      } else if child.name == "metrics" {
        // Input metrics are ignored: toXml computes its own.
      } else if child.name == "line" {
        if !HasAttributes(child, ["num", "count"]) {
          log' := log + [LineWithoutNumOrCount];
          return;
        }
        assert "num" in ["num", "count"] && "count" in ["num", "count"];
        var line := CloverLine.LineFromXml(child);
        MergeLine(PhpInt(child.attributes.values["num"]), line.value, false);
      } else {
        log' := log + ["Ignoring unknown element: " + child.name + "."];
      }
    }

    /** File::mergeClass */
    method MergeClass(name: string, c: ClassT)
      modifies this
      ensures State() == old(State()).(classes := AddClass(old(classes), name, c))
    {
      if name !in classes.values {
        classes := Put(classes, name, c);
      }
    }

    /** File::mergeLine */
    method MergeLine(n: int, line: LineState, lock: bool)
      modifies this
      ensures State() == old(State()).(lines := AddLine(old(lines), n, line, lock))
    {
      if n in lines.values {
        lines := Put(lines, n, CloverLine.LineMerge(lines.values[n], line));
      } else if !lock {
        lines := Put(lines, n, line);
      }
    }

    /** File::merge */
    method Merge(other: File, mode: MergeMode, lock: bool)
      modifies this
      ensures State() == MergeState(old(State()), old(other.State()), mode, lock)
    {
      var otherClasses, otherPackage, incoming := other.classes, other.packageName, other.lines;
      classes := OrderedMaps.Merge(otherClasses, classes);
      packageName := if packageName.Some? then packageName else otherPackage;
      if mode == Exclusive {
        lines := Intersect(lines, incoming);
        incoming := Intersect(incoming, lines);
      }
      lines := MergeLinesLoop(lines, incoming, lock);
    }

    /** The counting loop of File::toXml: six counters over the lines, the number of class
        entries, and one file. */
    method ToXmlMetrics() returns (metrics: FileMetrics, warnings: seq<string>)
      ensures metrics == MetricsOf(State())
      ensures warnings == TypeWarnings(LinesInOrder(lines))
    {
      var counters := Counters(0, 0, 0, 0, 0, 0);
      var classCount := |classes.keys|;
      ghost var ls := LinesInOrder(lines);
      warnings := [];
      for i := 0 to |lines.keys|
        invariant counters == TallyOf(ls[..i])
        invariant warnings == TypeWarnings(ls[..i])
      {
        var line := lines.values[lines.keys[i]];
        TallyPrefix(ls, i);
        var warning;
        counters, warning := CountLine(counters, line);
        warnings := warnings + warning;
      }
      assert ls[..|lines.keys|] == ls;
      metrics := FileMetrics(counters, classCount, 1);
    }
  }
}
