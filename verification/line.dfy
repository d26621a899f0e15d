/** Line: the hit count of one source line plus its other attributes. */
module CloverLine {
  import opened Wrappers
  import opened OrderedMaps
  import opened Xml

  /** `properties` holds every attribute of the element except `count`. */
  datatype LineState = LineState(count: int, properties: OMap<string, string>)

  datatype ParseError = ParseError(message: string)

  const MissingCount := "Unable to parse line, missing count attribute."

  /** Line::__construct, whose count defaults to 0. */
  function NewLine(properties: OMap<string, string>, count: int := 0): LineState {
    LineState(count, properties)
  }

  /** A line built without an explicit count has count 0 and the given properties. */
  lemma NewLineDefaultCount(properties: OMap<string, string>)
    ensures NewLine(properties).count == 0
    ensures NewLine(properties).properties == properties
  {
  }

  /** Line::fromXML: fails when `count` is missing; otherwise the count is the integer value
      of `count` and the properties are the other attributes, in document order. */
  function LineFromXml(e: Elem): (r: Result<LineState, ParseError>)
    ensures r.Failure? <==> "count" !in e.attributes.values
    ensures r.Failure? ==> r.error == ParseError(MissingCount)
    ensures r.Success? ==> r.value.count == PhpInt(e.attributes.values["count"])
    ensures r.Success? ==> r.value.properties.keys == KeepIn(e.attributes.keys, e.attributes.values.Keys - {"count"})
    ensures r.Success? ==> "count" !in r.value.properties.values
    ensures r.Success? ==> forall k :: k in e.attributes.values && k != "count" ==>
              k in r.value.properties.values && r.value.properties.values[k] == e.attributes.values[k]
  {
    if "count" !in e.attributes.values then Failure(ParseError(MissingCount))
    else Success(NewLine(Remove(e.attributes, "count"), PhpInt(e.attributes.values["count"])))
  }

  /** A `count` attribute holding the decimal text of n yields a line with count n. */
  lemma FromXmlDecimalCount(e: Elem, n: nat)
    requires "count" in e.attributes.values && e.attributes.values["count"] == Decimal(n)
    ensures LineFromXml(e).Success? && LineFromXml(e).value.count == n
  {
    PhpIntOfDecimal(n);
  }

  /** Line::merge: the counts add up; on a property both lines carry, `self`'s value stays;
      the keys are `other`'s, in its order, followed by the keys only `self` has. */
  function LineMerge(self: LineState, other: LineState): (r: LineState)
    ensures r.count == self.count + other.count
    ensures r.properties.values.Keys == self.properties.values.Keys + other.properties.values.Keys
    ensures forall k :: k in self.properties.values ==>
              r.properties.values[k] == self.properties.values[k]
    ensures forall k :: k in other.properties.values && k !in self.properties.values ==>
              r.properties.values[k] == other.properties.values[k]
    ensures r.properties.keys ==
              other.properties.keys + KeepIn(self.properties.keys, self.properties.values.Keys - other.properties.values.Keys)
  {
    LineState(self.count + other.count, OrderedMaps.Merge(other.properties, self.properties))
  }

  /** Merging lines whose properties agree on their shared keys is commutative up to key order:
      the counts and the property maps are the same either way. */
  lemma MergeSymmetricOnAgreement(a: LineState, b: LineState)
    requires forall k :: k in a.properties.values && k in b.properties.values ==>
               a.properties.values[k] == b.properties.values[k]
    ensures LineMerge(a, b).count == LineMerge(b, a).count
    ensures LineMerge(a, b).properties.values == LineMerge(b, a).properties.values
  {
    UnionCommutes(b.properties.values, a.properties.values);
  }

  /** The union of two maps that agree on their shared keys does not depend on the order. */
  lemma UnionCommutes<K, V>(m: map<K, V>, n: map<K, V>)
    requires forall k :: k in m && k in n ==> m[k] == n[k]
    ensures m + n == n + m
  {
    forall k | k in m + n ensures (m + n)[k] == (n + m)[k] {
      if k in m && k in n {
        assert (m + n)[k] == n[k];
      }
    }
  }

  /** Merging a line with itself doubles the count and keeps the properties. */
  lemma MergeSelf(a: LineState)
    ensures LineMerge(a, a).count == 2 * a.count
    ensures LineMerge(a, a).properties.values == a.properties.values
  {
  }

  /** A Line object: merge changes its count and properties in place. */
  class Line {
    var count: int
    var properties: OMap<string, string>

    function State(): LineState
      reads this
    {
      LineState(count, properties)
    }

    /** Line::__construct, whose count defaults to 0. */
    constructor (properties: OMap<string, string>, count: int := 0)
      ensures State() == NewLine(properties, count)
    {
      this.count := count;
      this.properties := properties;
    }

    /** Line::fromXML: the parse error for a missing count, otherwise a fresh line. */
    static method FromXml(e: Elem) returns (r: Result<Line, ParseError>)
      ensures r.Failure? <==> LineFromXml(e).Failure?
      ensures r.Failure? ==> r.error == LineFromXml(e).error
      ensures r.Success? ==> fresh(r.value) && r.value.State() == LineFromXml(e).value
    {
      if "count" !in e.attributes.values {
        return Failure(ParseError(MissingCount));
      }
      var line := new Line(Remove(e.attributes, "count"), PhpInt(e.attributes.values["count"]));
      return Success(line);
    }

    /** Line::merge: only this line changes; `other` is read, never written. */
    method Merge(other: Line)
      modifies this
      ensures State() == LineMerge(old(State()), old(other.State()))
      ensures other != this ==> other.State() == old(other.State())
    {
      properties := OrderedMaps.Merge(other.properties, properties);
      count := count + other.count;
    }
  }
}
