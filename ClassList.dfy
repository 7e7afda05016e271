/**
 * An element's `class` attribute read as a list of class names, and jQuery's
 * `removeClass(names)` on it: the attribute's value is split into names at
 * HTML whitespace, every occurrence of each name to remove is dropped, and
 * what is left is written back joined by single spaces.
 */
module ClassList {
  import opened Wrappers
  import opened Dom
  import opened Seqs

  /** HTML whitespace: space, tab, line feed, form feed, carriage return. */
  predicate IsSpace(c: char) {
    c == ' ' || c == '\t' || c == '\n' || c == '\U{C}' || c == '\r'
  }

  /** A class name: non-empty and free of whitespace. */
  predicate IsName(t: string) {
    t != [] && forall c :: c in t ==> !IsSpace(c)
  }

  /** The longest prefix of `s` free of whitespace. */
  function Word(s: string): (w: string)
    ensures w <= s
    ensures forall c :: c in w ==> !IsSpace(c)
    ensures |w| == |s| || IsSpace(s[|w|])
  {
    if s == [] || IsSpace(s[0]) then "" else [s[0]] + Word(s[1..])
  }

  /** The class names in `s`, in order: its maximal runs of non-whitespace. */
  function Names(s: string): (ts: seq<string>)
    ensures forall t :: t in ts ==> IsName(t)
    decreases |s|
  {
    if s == [] then []
    else if IsSpace(s[0]) then Names(s[1..])
    else
      var w := Word(s);
      [w] + Names(s[|w|..])
  }

  /** Class names written out, separated by single spaces. */
  function Join(ts: seq<string>): string {
    if ts == [] then ""
    else if |ts| == 1 then ts[0]
    else ts[0] + " " + Join(ts[1..])
  }

  /** The first word of `t + rest` is `t` when `t` has no whitespace and `rest` starts with some. */
  lemma {:induction false} WordOfName(t: string, rest: string)
    requires forall c :: c in t ==> !IsSpace(c)
    requires rest == [] || IsSpace(rest[0])
    ensures Word(t + rest) == t
  {
    if t != [] {
      assert (t + rest)[1..] == t[1..] + rest;
      WordOfName(t[1..], rest);
    }
  }

  /** Reading back names written out by `Join` gives the same names. */
  lemma {:induction false} NamesOfJoin(ts: seq<string>)
    requires forall t :: t in ts ==> IsName(t)
    ensures Names(Join(ts)) == ts
  {
    if ts == [] {
    } else if |ts| == 1 {
      var t := ts[0];
      assert t in ts && t + [] == t;
      WordOfName(t, []);
      assert Names(t) == [t] + Names(t[|t|..]);
    } else {
      var t, rest := ts[0], Join(ts[1..]);
      var s := t + " " + rest;
      assert t in ts;
      assert forall u :: u in ts[1..] ==> u in ts;
      WordOfName(t, " " + rest);
      assert s == t + (" " + rest);
      assert s[|t|..] == " " + rest;
      assert Names(" " + rest) == Names(rest) by {
        assert (" " + rest)[1..] == rest;
      }
      NamesOfJoin(ts[1..]);
      assert Names(s) == [t] + Names(s[|t|..]);
    }
  }

  /**
   * `removeClass(loadingClass)` on an element's attributes. Nothing happens
   * when `loadingClass` names no class, or when the element has no `class`
   * attribute; the attribute is written only when its value changes.
   */
  function RemoveClass(attrs: seq<Attr>, loadingClass: string): (r: seq<Attr>)
    ensures forall n :: n != "class" ==> Lookup(r, n) == Lookup(attrs, n)
    ensures Lookup(r, "class").Some? <==> Lookup(attrs, "class").Some?
    ensures Lookup(r, "class").Some? ==>
      Names(Lookup(r, "class").value) == Without(Names(Lookup(attrs, "class").value), Names(loadingClass))
    ensures forall t :: t in Names(loadingClass) && Lookup(r, "class").Some? ==>
      t !in Names(Lookup(r, "class").value)
    ensures DistinctNames(attrs) ==> DistinctNames(r)
  {
    var classes := Names(loadingClass);
    if classes == [] then
      assert Lookup(attrs, "class").Some? ==> Without(Names(Lookup(attrs, "class").value), []) == Names(Lookup(attrs, "class").value) by {
        if Lookup(attrs, "class").Some? { WithoutNothing(Names(Lookup(attrs, "class").value)); }
      }
      attrs
    else match Lookup(attrs, "class")
      case None => attrs
      case Some(cur) =>
        var kept := Without(Names(cur), classes);
        var final := Join(kept);
        NamesOfJoin(kept);
        if cur == final then attrs
        else
          assert DistinctNames(attrs) ==> DistinctNames(SetAttr(attrs, "class", final)) by {
            if DistinctNames(attrs) { SetAttrKeepsDistinct(attrs, "class", final); }
          }
          SetAttr(attrs, "class", final)
  }
}
