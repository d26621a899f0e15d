/** ClassT: an immutable bag of string attributes read from a `class` element. */
module CloverClass {
  import opened OrderedMaps
  import opened Xml

  /** All attributes of the element, `name` and `namespace` included; never written after construction. */
  datatype ClassT = ClassT(properties: OMap<string, string>)

  /** ClassT::getProperties: the map the constructor was given. */
  function GetProperties(c: ClassT): OMap<string, string> {
    c.properties
  }

  lemma GetPropertiesIsConstructorMap(p: OMap<string, string>)
    ensures GetProperties(ClassT(p)) == p
  {
  }

  /** ClassT::fromXML: every attribute becomes a (string) property, in document order. */
  function FromXml(e: Elem): (c: ClassT)
    ensures c.properties.keys == e.attributes.keys
    ensures forall k :: k in e.attributes.values ==>
              k in c.properties.values && c.properties.values[k] == e.attributes.values[k]
    ensures forall k :: k in c.properties.values ==> k in e.attributes.values
  {
    ClassT(e.attributes)
  }

  /** ClassT::toXml: a `class` element carrying one attribute per property, in property order. */
  function ToXml(c: ClassT): (e: Elem)
    ensures e.name == "class" && e.children == []
    ensures e.attributes.keys == c.properties.keys
    ensures forall k :: k in c.properties.values ==>
              k in e.attributes.values && e.attributes.values[k] == c.properties.values[k]
  {
    Elem("class", c.properties, [])
  }

  /** Reading back what toXml writes gives the same property map. */
  lemma ToXmlRoundTrip(c: ClassT)
    ensures FromXml(ToXml(c)) == c
  {
  }
}
