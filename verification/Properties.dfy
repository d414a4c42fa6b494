/** Volume properties: name/value maps with a subset query. */
module Properties {
  type Properties = map<string, string>

  /** Every property of `other` is in `p` with the same value. */
  ghost predicate Includes(p: Properties, other: Properties) {
    forall k <- other :: k in p && p[k] == other[k]
  }

  lemma IncludedIsSmaller(p: Properties, other: Properties)
    requires Includes(p, other)
    ensures |other| <= |p|
  {
    assert other.Keys <= p.Keys;
    assert p.Keys == other.Keys + (p.Keys - other.Keys);
    assert |other.Keys| <= |p.Keys|;
  }

  /** The query test with its length shortcut is exactly inclusion. */
  method HasProperties(p: Properties, other: Properties) returns (r: bool)
    ensures r <==> Includes(p, other)
  {
    if Includes(p, other) { IncludedIsSmaller(p, other); }
    if |other| > |p| {
      return false;
    }
    var todo := other.Keys;
    while todo != {}
      invariant todo <= other.Keys
      invariant forall k <- other :: k !in todo ==> k in p && p[k] == other[k]
    {
      var name :| name in todo;
      if name !in p || p[name] != other[name] {
        return false;
      }
      todo := todo - {name};
    }
    return true;
  }

  /** The update builds a fresh map and leaves its receiver alone. */
  method UpdateProperty(p: Properties, name: string, value: string) returns (updated: Properties)
    ensures updated == p[name := value]
  {
    updated := map[];
    var todo := p.Keys;
    while todo != {}
      invariant todo <= p.Keys
      invariant updated == map k | k in p.Keys - todo :: p[k]
    {
      var k :| k in todo;
      updated := updated[k := p[k]];
      todo := todo - {k};
    }
    assert updated == p;
    updated := updated[name := value];
  }
}
