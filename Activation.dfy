/**
 * What the one-shot "unveil" handler does to one element. In "img" mode it
 * copies the element's deferred source into `src`; in any other mode it
 * builds a replacement element carrying a copy of every attribute, minus the
 * loading class. The callback runs after an "img" write and after every
 * replacement.
 */
module Activation {
  import opened Wrappers
  import opened Dom
  import opened Seqs
  import opened ClassList
  import opened Config

  /** The attribute read first: the high-density variant on a retina display. */
  function Attrib(retina: bool): (r: string)
    ensures r == "data-src-retina" <==> retina
    ensures r == "data-src" <==> !retina
  {
    if retina then "data-src-retina" else "data-src"
  }

  /** JavaScript truthiness of an attribute value: present and not empty. */
  predicate Truthy(v: Option<string>) {
    v.Some? && v.value != ""
  }

  /**
   * The source an image gets: the attribute for the display's density when it
   * is present and not empty, and `data-src` otherwise; `None` when that is
   * absent or empty too.
   */
  function ChooseSource(attrs: seq<Attr>, retina: bool): (r: Option<string>)
    ensures r.Some? ==> r.value != ""
    ensures r.Some? <==> Truthy(Lookup(attrs, Attrib(retina))) || Truthy(Lookup(attrs, "data-src"))
    ensures Truthy(Lookup(attrs, Attrib(retina))) ==> r == Lookup(attrs, Attrib(retina))
    ensures !Truthy(Lookup(attrs, Attrib(retina))) && r.Some? ==> r == Lookup(attrs, "data-src")
  {
    var first := Lookup(attrs, Attrib(retina));
    var source := if Truthy(first) then first else Lookup(attrs, "data-src");
    if Truthy(source) then source else None
  }

  /** A high-density source wins on a retina display; a standard display takes `data-src`. */
  lemma SourceOrder(hi: string, lo: string)
    requires hi != "" && lo != ""
    ensures ChooseSource([Attr("data-src", lo), Attr("data-src-retina", hi)], true) == Some(hi)
    ensures ChooseSource([Attr("data-src", lo), Attr("data-src-retina", hi)], false) == Some(lo)
    ensures ChooseSource([Attr("data-src", lo)], true) == Some(lo)
    ensures ChooseSource([Attr("data-src-retina", ""), Attr("data-src", "")], true) == None
  {
  }

  /**
   * The handler's effect on one element: its attributes afterwards, the
   * element that replaced it (if any), and whether the callback was called.
   */
  datatype Effect = Effect(attrs: seq<Attr>, embed: Option<Embed>, callback: bool)

  /**
   * The handler's effect on an element whose attributes are `attrs`. In "img"
   * mode, exactly when a source is found, `src` becomes that source and the
   * callback runs; no other attribute changes. In any other mode the element
   * keeps its attributes, a replacement with the configured tag takes its
   * place carrying every attribute of the original except that the loading
   * class is struck from `class`, and the callback runs.
   */
  function Activate(s: Settings, retina: bool, attrs: seq<Attr>): (eff: Effect)
    ensures s.mode == "img" ==> eff.embed.None? && (eff.callback <==> ChooseSource(attrs, retina).Some?)
    ensures s.mode == "img" && eff.callback ==>
      Lookup(eff.attrs, "src") == ChooseSource(attrs, retina) &&
      forall n :: n != "src" ==> Lookup(eff.attrs, n) == Lookup(attrs, n)
    ensures s.mode == "img" && !eff.callback ==> eff.attrs == attrs
    ensures s.mode != "img" ==> eff.callback && eff.attrs == attrs && eff.embed.Some?
    ensures s.mode != "img" ==> eff.embed.value.tag == s.replaceTag
    ensures s.mode != "img" ==>
      forall n :: n != "class" ==> Lookup(eff.embed.value.attrs, n) == Lookup(attrs, n)
    ensures s.mode != "img" ==>
      (Lookup(eff.embed.value.attrs, "class").Some? <==> Lookup(attrs, "class").Some?)
    ensures s.mode != "img" && Lookup(attrs, "class").Some? ==>
      Names(Lookup(eff.embed.value.attrs, "class").value) == Without(Names(Lookup(attrs, "class").value), Names(s.loadingClass))
    ensures s.mode != "img" && Lookup(attrs, "class").Some? ==>
      forall t :: t in Names(s.loadingClass) ==> t !in Names(Lookup(eff.embed.value.attrs, "class").value)
    ensures DistinctNames(attrs) ==> DistinctNames(eff.attrs)
  {
    if s.mode == "img" then
      match ChooseSource(attrs, retina)
      case Some(source) =>
        assert DistinctNames(attrs) ==> DistinctNames(SetAttr(attrs, "src", source)) by {
          if DistinctNames(attrs) { SetAttrKeepsDistinct(attrs, "src", source); }
        }
        Effect(SetAttr(attrs, "src", source), None, true)
      case None => Effect(attrs, None, false)
    else
      Effect(attrs, Some(Embed(s.replaceTag, RemoveClass(attrs, s.loadingClass))), true)
  }

  /**
   * `$.each(attributes, ...)` with `$embed.attr(name, value)`: copy the
   * attributes one by one onto an element that has none. Since a document
   * never repeats an attribute name, the copy is the original list.
   */
  method CopyAttributes(attrs: seq<Attr>) returns (copy: seq<Attr>)
    requires DistinctNames(attrs)
    ensures copy == attrs
  {
    copy := [];
    for i := 0 to |attrs|
      invariant copy == attrs[..i]
    {
      assert Lookup(copy, attrs[i].name).None? by {
        forall a | a in copy ensures a.name != attrs[i].name {
          var k :| 0 <= k < i && attrs[k] == a;
        }
      }
      SetAttrAppends(copy, attrs[i].name, attrs[i].value);
      copy := SetAttr(copy, attrs[i].name, attrs[i].value);
      assert attrs[..i + 1] == attrs[..i] + [attrs[i]];
    }
    assert attrs[..|attrs|] == attrs;
  }

  /**
   * A placeholder with `id="x" data-src="y" class="loading foo"` becomes an
   * `<embed>` element with the same attributes, in the same order, and
   * `class="foo"`.
   */
  lemma SubstitutionExample()
    ensures Activate(Settings(1000, "<embed>", 0, "placeholder", "loading"), false,
                     [Attr("id", "x"), Attr("data-src", "y"), Attr("class", "loading foo")])
         == Effect([Attr("id", "x"), Attr("data-src", "y"), Attr("class", "loading foo")],
                   Some(Embed("<embed>", [Attr("id", "x"), Attr("data-src", "y"), Attr("class", "foo")])),
                   true)
  {
    ExampleRemoveClass();
    assert "placeholder" != "img";
  }

  lemma ExampleRemoveClass()
    ensures RemoveClass([Attr("id", "x"), Attr("data-src", "y"), Attr("class", "loading foo")], "loading")
         == [Attr("id", "x"), Attr("data-src", "y"), Attr("class", "foo")]
  {
    var attrs := [Attr("id", "x"), Attr("data-src", "y"), Attr("class", "loading foo")];
    ExampleNames();
    ExampleLookupClass();
    ExampleSetClass();
    assert Join(Without(Names("loading foo"), Names("loading"))) == "foo" by {
      assert Without(["loading", "foo"], ["loading"]) == ["foo"];
    }
    assert "loading foo" != "foo" by { assert |"loading foo"| != |"foo"|; }
  }

  lemma ExampleLookupClass()
    ensures Lookup([Attr("id", "x"), Attr("data-src", "y"), Attr("class", "loading foo")], "class") == Some("loading foo")
  {
  }

  lemma ExampleSetClass()
    ensures SetAttr([Attr("id", "x"), Attr("data-src", "y"), Attr("class", "loading foo")], "class", "foo")
         == [Attr("id", "x"), Attr("data-src", "y"), Attr("class", "foo")]
  {
  }

  lemma ExampleNames()
    ensures Names("loading foo") == ["loading", "foo"]
    ensures Names("loading") == ["loading"]
  {
    assert IsName("loading") && IsName("foo");
    assert Join(["loading", "foo"]) == "loading foo";
    NamesOfJoin(["loading", "foo"]);
    NamesOfJoin(["loading"]);
  }
}
