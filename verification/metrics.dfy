/** Metrics: an immutable bag of string attributes read from a `metrics` element. */
module CloverMetrics {
  import opened OrderedMaps
  import opened Xml

  /** The properties are fixed at construction; nothing writes to them afterwards. */
  datatype Metrics = Metrics(properties: OMap<string, string>)

  /** Metrics::getProperties: the map the constructor was given. */
  function GetProperties(m: Metrics): OMap<string, string> {
    m.properties
  }

  lemma GetPropertiesIsConstructorMap(p: OMap<string, string>)
    ensures GetProperties(Metrics(p)) == p
  {
  }

  /** Metrics::fromXML: every attribute becomes a (string) property, in document order. */
  function FromXml(e: Elem): (m: Metrics)
    ensures m.properties.keys == e.attributes.keys
    ensures forall k :: k in e.attributes.values ==>
              k in m.properties.values && m.properties.values[k] == e.attributes.values[k]
    ensures forall k :: k in m.properties.values ==> k in e.attributes.values
  {
    Metrics(e.attributes)
  }

  /** buildMetrics: a `metrics` element with one attribute per property, same key and value. */
  function ToXml(m: Metrics): (e: Elem)
    ensures e.name == "metrics" && e.children == []
    ensures e.attributes == m.properties
  {
    Elem("metrics", m.properties, [])
  }

  /** Writing a metrics bag out and reading it back gives the same bag. */
  lemma ToXmlRoundTrip(m: Metrics)
    ensures FromXml(ToXml(m)) == m
  {
  }

  /** Reading a childless `metrics` element and writing it back gives the same element. */
  lemma FromXmlRoundTrip(e: Elem)
    requires e.name == "metrics" && e.children == []
    ensures ToXml(FromXml(e)) == e
  {
  }
}
