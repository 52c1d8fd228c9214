/** The `getProperties(selecter)` accessor that both the system-under-test object and the
    testssl emissary expose over their validated property record. The record is a map from
    property name to value; a name the record lacks reads as `undefined` (None). */
module Properties {
  import opened Wrappers

  /** What the caller passed: a string, an array of strings, or anything else. */
  datatype Selector = ByName(name: string) | ByNames(names: seq<string>) | Everything

  /** What comes back: one value, a new record of the listed names, or the whole record. */
  datatype Selection<V> =
    | Single(value: Option<V>)
    | Record(fields: map<string, Option<V>>)
    | Whole(props: map<string, V>)

  function Lookup<V>(props: map<string, V>, name: string): Option<V>
  {
    if name in props then Some(props[name]) else None
  }

  /** The `reduce` that spreads the accumulated record and adds `[propertyName]: properties[propertyName]`. */
  function Pick<V>(props: map<string, V>, names: seq<string>): (r: map<string, Option<V>>)
    ensures r.Keys == set n | n in names
    ensures forall n :: n in r ==> r[n] == Lookup(props, n)
  {
    if |names| == 0 then map[]
    else
      var last := names[|names| - 1];
      assert forall n :: n in names <==> n in names[..|names| - 1] || n == last;
      Pick(props, names[..|names| - 1])[last := Lookup(props, last)]
  }

  function GetProperties<V>(props: map<string, V>, selecter: Selector): (r: Selection<V>)
    ensures selecter.ByName? ==> r.Single? && (r.value.Some? <==> selecter.name in props)
    ensures selecter.ByName? && selecter.name in props ==> r.value.value == props[selecter.name]
    ensures selecter.ByNames? ==> r.Record? && r.fields.Keys == set n | n in selecter.names
    ensures selecter.ByNames? ==>
      forall n :: n in r.fields ==> (r.fields[n].Some? <==> n in props) && (n in props ==> r.fields[n].value == props[n])
    ensures selecter.Everything? ==> r == Whole(props)
  {
    match selecter
    case ByName(name) => Single(Lookup(props, name))
    case ByNames(names) => Record(Pick(props, names))
    case Everything => Whole(props)
  }
}
