/**
 * The small slice of the document the plugin touches: elements, each with an
 * ordered attribute list, read with `getAttribute` and written with
 * `setAttribute`.
 */
module Dom {
  import opened Wrappers

  /** A document element, identified by a number. */
  type Elem = nat

  /** One entry of an element's attribute list. */
  datatype Attr = Attr(name: string, value: string)

  /** An element built to take a placeholder's place: its tag and its attributes. */
  datatype Embed = Embed(tag: string, attrs: seq<Attr>)

  /** A document never gives one element two attributes of the same name. */
  predicate DistinctNames(attrs: seq<Attr>) {
    forall i, j :: 0 <= i < j < |attrs| ==> attrs[i].name != attrs[j].name
  }

  /** `getAttribute(name)`: the value of the first attribute so named, `None` for `null`. */
  function Lookup(attrs: seq<Attr>, name: string): (r: Option<string>)
    ensures r.Some? ==> Attr(name, r.value) in attrs
    ensures r.None? <==> forall a :: a in attrs ==> a.name != name
  {
    if attrs == [] then None
    else if attrs[0].name == name then Some(attrs[0].value)
    else Lookup(attrs[1..], name)
  }

  /**
   * `setAttribute(name, value)`: overwrite the value of the attribute so
   * named, or append a new attribute when there is none.
   */
  function SetAttr(attrs: seq<Attr>, name: string, value: string): (r: seq<Attr>)
    ensures Lookup(r, name) == Some(value)
    ensures forall n :: n != name ==> Lookup(r, n) == Lookup(attrs, n)
    ensures forall a :: a in r ==> a == Attr(name, value) || a in attrs
    ensures |r| == if Lookup(attrs, name).None? then |attrs| + 1 else |attrs|
  {
    if attrs == [] then [Attr(name, value)]
    else if attrs[0].name == name then [Attr(name, value)] + attrs[1..]
    else [attrs[0]] + SetAttr(attrs[1..], name, value)
  }

  /** Setting an attribute the element does not have appends it at the end. */
  lemma {:induction false} SetAttrAppends(attrs: seq<Attr>, name: string, value: string)
    requires Lookup(attrs, name).None?
    ensures SetAttr(attrs, name, value) == attrs + [Attr(name, value)]
  {
    if attrs != [] {
      assert attrs[0].name != name;
      assert Lookup(attrs[1..], name).None?;
      SetAttrAppends(attrs[1..], name, value);
      calc {
        SetAttr(attrs, name, value);
        [attrs[0]] + SetAttr(attrs[1..], name, value);
        [attrs[0]] + (attrs[1..] + [Attr(name, value)]);
        ([attrs[0]] + attrs[1..]) + [Attr(name, value)];
        { assert [attrs[0]] + attrs[1..] == attrs; }
        attrs + [Attr(name, value)];
      }
    }
  }

  /** Setting an attribute never gives the element two attributes of one name. */
  lemma {:induction false} SetAttrKeepsDistinct(attrs: seq<Attr>, name: string, value: string)
    requires DistinctNames(attrs)
    ensures DistinctNames(SetAttr(attrs, name, value))
  {
    var r := SetAttr(attrs, name, value);
    if attrs == [] {
    } else if attrs[0].name == name {
      assert forall i :: 0 <= i < |r| ==> r[i].name == attrs[i].name;
    } else {
      DistinctUncons(attrs);
      SetAttrKeepsDistinct(attrs[1..], name, value);
      DistinctCons(attrs[0], SetAttr(attrs[1..], name, value));
    }
  }

  /** A list with distinct names splits into its head and a tail that repeats neither the head's name nor its own. */
  lemma DistinctUncons(attrs: seq<Attr>)
    requires DistinctNames(attrs) && attrs != []
    ensures DistinctNames(attrs[1..])
    ensures forall a :: a in attrs[1..] ==> a.name != attrs[0].name
  {
  }

  /** Putting an attribute whose name the list lacks in front of it keeps the names distinct. */
  lemma DistinctCons(a: Attr, rest: seq<Attr>)
    requires DistinctNames(rest)
    requires forall b :: b in rest ==> b.name != a.name
    ensures DistinctNames([a] + rest)
  {
  }
}
