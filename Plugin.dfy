/**
 * One call of `$.fn.unveil`: the closure state it keeps (the pending
 * placeholders, the last activated batch, the delay timers waiting to
 * expire) and the document state its one-shot handler changes.
 */
module Plugin {
  import opened Wrappers
  import opened Seqs
  import opened Dom
  import opened Config
  import opened Visibility
  import opened Activation
  import opened ClassList

  /** What the handler's closure fixes: the settings, the display density, whether a callback was given. */
  datatype Handler = Handler(settings: Settings, retina: bool, hasCallback: bool)

  /**
   * The document as the handler leaves it: every element's attributes,
   * the elements whose one-shot handler has run, the element that replaced
   * each replaced placeholder, and the elements the callback was called on,
   * in order.
   */
  datatype Doc = Doc(attrs: map<Elem, seq<Attr>>, fired: set<Elem>, embeds: map<Elem, Embed>, callbacks: seq<Elem>)

  /**
   * What holds of every document the plugin produces: no attribute name is
   * repeated, only fired elements were replaced or reported to the callback,
   * and the callback was called at most once per element.
   */
  ghost predicate Consistent(d: Doc) {
    && (forall e :: e in d.attrs ==> DistinctNames(d.attrs[e]))
    && d.fired <= d.attrs.Keys
    && d.embeds.Keys <= d.fired
    && (forall e :: e in d.callbacks ==> e in d.fired)
    && NoDup(d.callbacks)
  }

  /**
   * Triggering "unveil" on `e`: the handler bound with `.one` runs only if it
   * has not run on `e` before, and then applies its effect.
   */
  function FireOne(d: Doc, h: Handler, e: Elem): (r: Doc)
    requires e in d.attrs
    ensures r.attrs.Keys == d.attrs.Keys
    ensures r.fired == d.fired + {e}
    ensures e in d.fired ==> r == d
    ensures forall x :: x != e && x in d.attrs ==> r.attrs[x] == d.attrs[x]
    ensures forall x :: x != e ==> (x in r.embeds <==> x in d.embeds)
    ensures forall x :: x != e && x in d.embeds ==> r.embeds[x] == d.embeds[x]
    ensures r.callbacks == d.callbacks || (e !in d.fired && r.callbacks == d.callbacks + [e])
    ensures e !in d.fired ==>
      r.callbacks == if h.hasCallback && (h.settings.mode != "img" || ChooseSource(d.attrs[e], h.retina).Some?)
                     then d.callbacks + [e] else d.callbacks
    ensures e !in d.fired && h.settings.mode == "img" ==> r.embeds == d.embeds
    ensures e !in d.fired && h.settings.mode == "img" && ChooseSource(d.attrs[e], h.retina).Some? ==>
      Lookup(r.attrs[e], "src") == ChooseSource(d.attrs[e], h.retina) &&
      forall n :: n != "src" ==> Lookup(r.attrs[e], n) == Lookup(d.attrs[e], n)
    ensures e !in d.fired && h.settings.mode == "img" && ChooseSource(d.attrs[e], h.retina).None? ==>
      r.attrs[e] == d.attrs[e]
    ensures e !in d.fired && h.settings.mode != "img" ==>
      r.attrs[e] == d.attrs[e] && e in r.embeds && r.embeds[e].tag == h.settings.replaceTag &&
      r.embeds[e].attrs == RemoveClass(d.attrs[e], h.settings.loadingClass)
  {
    if e in d.fired then d
    else
      var eff := Activate(h.settings, h.retina, d.attrs[e]);
      Doc(d.attrs[e := eff.attrs],
          d.fired + {e},
          if eff.embed.Some? then d.embeds[e := eff.embed.value] else d.embeds,
          if eff.callback && h.hasCallback then d.callbacks + [e] else d.callbacks)
  }

  /** `batch.trigger("unveil")`: trigger each element of the batch in turn. */
  function FireAll(d: Doc, h: Handler, batch: seq<Elem>): (r: Doc)
    requires forall e :: e in batch ==> e in d.attrs
    ensures r.attrs.Keys == d.attrs.Keys
    ensures r.fired == d.fired + set e | e in batch
    ensures forall x :: x !in batch && x in d.attrs ==> r.attrs[x] == d.attrs[x]
    ensures forall x :: x !in batch ==> (x in r.embeds <==> x in d.embeds)
    ensures forall x :: x !in batch && x in d.embeds ==> r.embeds[x] == d.embeds[x]
    ensures d.callbacks <= r.callbacks
    ensures forall x :: x in r.callbacks && x !in d.callbacks ==> x in batch
    decreases |batch|
  {
    if batch == [] then d
    else
      var init, last := batch[..|batch| - 1], batch[|batch| - 1];
      assert batch == init + [last];
      assert (set e | e in batch) == (set e | e in init) + {last};
      FireOne(FireAll(d, h, init), h, last)
  }

  /**
   * Triggering `a + b` triggers `a` and then `b`, and triggering one element
   * is `FireOne` on it: the batch's members are activated in the batch's
   * order, so the callback log follows that order too.
   */
  lemma {:induction false} FireAllConcat(d: Doc, h: Handler, a: seq<Elem>, b: seq<Elem>)
    requires forall e :: e in a + b ==> e in d.attrs
    ensures FireAll(d, h, a + b) == FireAll(FireAll(d, h, a), h, b)
    ensures |b| == 1 ==> FireAll(d, h, b) == FireOne(d, h, b[0])
    decreases |b|
  {
    assert forall e :: e in a ==> e in a + b;
    if b == [] {
      assert a + b == a;
    } else {
      var init, last := b[..|b| - 1], b[|b| - 1];
      assert (a + b)[..|a + b| - 1] == a + init;
      assert (a + b)[|a + b| - 1] == last;
      assert forall e :: e in a + init ==> e in a + b;
      FireAllConcat(d, h, a, init);
      if |b| == 1 {
        assert init == [];
      }
    }
  }

  /**
   * Triggering a batch applies the handler's effect to every member that had
   * not fired before: its attributes, its replacement and its callback entry
   * are those `Activate` gives for its attributes before the trigger.
   */
  lemma {:induction false} FireAllActivates(d: Doc, h: Handler, batch: seq<Elem>, x: Elem)
    requires Consistent(d) && forall e :: e in batch ==> e in d.attrs
    requires x in batch && x !in d.fired
    ensures var r := FireAll(d, h, batch);
      var eff := Activate(h.settings, h.retina, d.attrs[x]);
      && r.attrs[x] == eff.attrs
      && (x in r.embeds <==> eff.embed.Some?)
      && (x in r.embeds ==> r.embeds[x] == eff.embed.value)
      && (x in r.callbacks <==> eff.callback && h.hasCallback)
  {
    var init := batch[..|batch| - 1];
    var last := batch[|batch| - 1];
    assert batch == init + [last];
    assert forall e :: e in init ==> e in batch;
    var mid := FireAll(d, h, init);
    if x in init {
      FireAllActivates(d, h, init, x);
      if last == x {
        assert x in mid.fired;
      }
    } else {
      assert x == last;
      assert x !in d.embeds && x !in d.callbacks;
      assert x !in mid.fired;
    }
  }

  /** Firing an element a second time changes nothing. */
  lemma FireOneOnce(d: Doc, h: Handler, e: Elem)
    requires e in d.attrs
    ensures FireOne(FireOne(d, h, e), h, e) == FireOne(d, h, e)
  {
  }

  /** Firing keeps a document consistent. */
  lemma FireOneConsistent(d: Doc, h: Handler, e: Elem)
    requires Consistent(d) && e in d.attrs
    ensures Consistent(FireOne(d, h, e))
  {
  }

  /** Triggering a batch keeps a document consistent. */
  lemma {:induction false} FireAllConsistent(d: Doc, h: Handler, batch: seq<Elem>)
    requires Consistent(d) && forall e :: e in batch ==> e in d.attrs
    ensures Consistent(FireAll(d, h, batch))
  {
    if batch != [] {
      var init := batch[..|batch| - 1];
      assert forall e :: e in init ==> e in batch;
      FireAllConsistent(d, h, init);
      FireOneConsistent(FireAll(d, h, init), h, batch[|batch| - 1]);
    }
  }

  /**
   * Once an element has fired, triggering it again never touches it: its
   * attributes, its replacement and its callback record stay as they are.
   */
  lemma {:induction false} FiredElementsFrozen(d: Doc, h: Handler, batch: seq<Elem>, x: Elem)
    requires forall e :: e in batch ==> e in d.attrs
    requires x in d.fired && x in d.attrs
    ensures FireAll(d, h, batch).attrs[x] == d.attrs[x]
    ensures x in FireAll(d, h, batch).embeds <==> x in d.embeds
    ensures x in d.embeds ==> FireAll(d, h, batch).embeds[x] == d.embeds[x]
    ensures x in FireAll(d, h, batch).callbacks <==> x in d.callbacks
  {
    if batch != [] {
      var init := batch[..|batch| - 1];
      assert forall e :: e in init ==> e in batch;
      FiredElementsFrozen(d, h, init, x);
    }
  }

  /**
   * A batch member that has scrolled out of view by the time its delay
   * timer expires is not activated by that timer.
   */
  lemma ScrolledAwayNotActivated(d: Doc, h: Handler, batch: seq<Elem>, w: Viewport, geom: Geometry, x: Elem)
    requires Consistent(d) && forall e :: e in batch ==> e in d.attrs
    requires x in batch && x !in d.fired && !InView(geom(x), w, h.settings.threshold)
    ensures var r := FireAll(d, h, InViewOf(batch, w, geom, h.settings.threshold));
      x !in r.fired && r.attrs[x] == d.attrs[x] && x !in r.embeds
  {
  }

  /**
   * The state of one call of the plugin: the closure's variables
   * (`placeholders`, `loaded`, and the batches captured by delay timers that
   * have not yet expired, in expiry order) together with the document the
   * handler changes.
   */
  class Unveil {
    const handler: Handler
    var placeholders: seq<Elem>
    var loaded: seq<Elem>
    var timers: seq<seq<Elem>>
    var attrs: map<Elem, seq<Attr>>
    var fired: set<Elem>
    var embeds: map<Elem, Embed>
    var callbacks: seq<Elem>

    /** The document part of the state. */
    function Document(): Doc
      reads this
    {
      Doc(attrs, fired, embeds, callbacks)
    }

    /**
     * The document is consistent; every element the plugin tracks is in the
     * document; every element of the last activated batch has fired; timers
     * are only ever set when a delay is configured.
     */
    ghost predicate Valid()
      reads this
    {
      && Consistent(Document())
      && (forall e :: e in placeholders ==> e in attrs)
      && (forall e :: e in loaded ==> e in fired)
      && (forall i, e :: 0 <= i < |timers| && e in timers[i] ==> e in attrs)
      && (handler.settings.delay <= 0 ==> timers == [])
    }

    /**
     * `$(elems).unveil(options, callback)`: settle the settings, bind the
     * one-shot handler to every element, and run the first scan.
     */
    constructor (elems: seq<Elem>, options: Options, retina: bool, hasCallback: bool,
                 page: map<Elem, seq<Attr>>, w: Viewport, geom: Geometry)
      requires forall e :: e in elems ==> e in page
      requires forall e :: e in page ==> DistinctNames(page[e])
      ensures Valid()
      ensures handler == Handler(Extend(options), retina, hasCallback)
      ensures var inview := InViewOf(elems, w, geom, handler.settings.threshold);
        var start := Doc(page, {}, map[], []);
        if handler.settings.delay > 0 then
          placeholders == elems && loaded == [] && timers == [inview] && Document() == start
        else
          placeholders == OutOfViewOf(elems, w, geom, handler.settings.threshold) && loaded == inview &&
          timers == [] && Document() == FireAll(start, handler, inview)
    {
      handler := Handler(Extend(options), retina, hasCallback);
      placeholders, loaded, timers := elems, [], [];
      attrs, fired, embeds, callbacks := page, {}, map[], [];
      new;
      Scan(w, geom);
      WithoutNothing(elems);
    }

    /**
     * The handler bound with `.one("unveil")`, triggered on `e`. It runs at
     * most once per element; in "img" mode it writes the chosen source to
     * `src` and calls back only when there is one, and otherwise it replaces
     * the element by a new one carrying its attributes and calls back.
     */
    method Fire(e: Elem)
      requires Consistent(Document()) && e in attrs
      modifies this`attrs, this`fired, this`embeds, this`callbacks
      ensures Document() == FireOne(old(Document()), handler, e)
    {
      if e in fired {
        return;
      }
      fired := fired + {e};
      if handler.settings.mode == "img" {
        var source := Lookup(attrs[e], Attrib(handler.retina));
        if !Truthy(source) {
          source := Lookup(attrs[e], "data-src");
        }
        if Truthy(source) {
          attrs := attrs[e := SetAttr(attrs[e], "src", source.value)];
          if handler.hasCallback {
            callbacks := callbacks + [e];
          }
        } else {
          assert attrs == attrs[e := attrs[e]];
        }
      } else {
        var copy := CopyAttributes(attrs[e]);
        embeds := embeds[e := Embed(handler.settings.replaceTag, RemoveClass(copy, handler.settings.loadingClass))];
        if handler.hasCallback {
          callbacks := callbacks + [e];
        }
        assert attrs == attrs[e := attrs[e]];
      }
    }

    /** `batch.trigger("unveil")`: fire the handler on each element of the batch, in order. */
    method Trigger(batch: seq<Elem>)
      requires Consistent(Document()) && forall e :: e in batch ==> e in attrs
      modifies this`attrs, this`fired, this`embeds, this`callbacks
      ensures Document() == FireAll(old(Document()), handler, batch)
      ensures Consistent(Document())
    {
      for i := 0 to |batch|
        invariant attrs.Keys == old(attrs).Keys
        invariant forall e :: e in batch[..i] ==> e in old(attrs)
        invariant Document() == FireAll(old(Document()), handler, batch[..i])
        invariant Consistent(Document())
      {
        assert batch[..i + 1][..i] == batch[..i];
        FireOneConsistent(Document(), handler, batch[i]);
        Fire(batch[i]);
      }
      assert batch[..|batch|] == batch;
    }

    /**
     * `unveil()`, run on every scroll, resize or lookup: find the pending
     * elements in view; with no delay trigger them at once and make them the
     * last activated batch, with a delay hand them to a new timer; then drop
     * the last activated batch from the pending elements.
     */
    method Scan(w: Viewport, geom: Geometry)
      requires Valid()
      modifies this
      ensures Valid()
      ensures var inview := InViewOf(old(placeholders), w, geom, handler.settings.threshold);
        if handler.settings.delay > 0 then
          timers == old(timers) + [inview] && loaded == old(loaded) && Document() == old(Document())
        else
          timers == old(timers) && loaded == inview && Document() == FireAll(old(Document()), handler, inview)
      ensures placeholders == Without(old(placeholders), loaded)
      ensures handler.settings.delay <= 0 ==>
        placeholders == OutOfViewOf(old(placeholders), w, geom, handler.settings.threshold)
      ensures forall e :: e in old(placeholders) && e !in placeholders ==> e in fired
    {
      var inview := InViewOf(placeholders, w, geom, handler.settings.threshold);
      assert forall e :: e in inview ==> e in attrs;
      if handler.settings.delay > 0 {
        timers := timers + [inview];
        assert forall i, e :: 0 <= i < |timers| && e in timers[i] ==> e in attrs by {
          forall i, e | 0 <= i < |timers| && e in timers[i] ensures e in attrs {
            if i < |timers| - 1 {
              assert timers[i] == old(timers)[i];
            }
          }
        }
      } else {
        Trigger(inview);
        loaded := inview;
        RemovingInView(placeholders, w, geom, handler.settings.threshold);
      }
      placeholders := Without(placeholders, loaded);
    }

    /**
     * The oldest delay timer expires: trigger the members of its batch that
     * are still in view and make them the last activated batch. The pending
     * elements are left as they are until the next scan.
     */
    method TimerFire(w: Viewport, geom: Geometry)
      requires Valid() && timers != []
      modifies this
      ensures Valid()
      ensures var stillInView := InViewOf(old(timers)[0], w, geom, handler.settings.threshold);
        timers == old(timers)[1..] && loaded == stillInView &&
        Document() == FireAll(old(Document()), handler, stillInView)
      ensures placeholders == old(placeholders)
    {
      var inview := timers[0];
      timers := timers[1..];
      var stillInView := InViewOf(inview, w, geom, handler.settings.threshold);
      Trigger(stillInView);
      loaded := stillInView;
    }
  }

  /**
   * With a delay, an element the timer activates stays pending until the
   * next scan, because a scan drops the batch of the timer that expired
   * before it, not the batch it hands to its own timer.
   */
  method DelayedActivationLags()
  {
    var w := Viewport(0, 500);
    var geom := (e: Elem) => Box(0, 10, false);
    var options := Options(None, None, Some(200), None, None);
    var u := new Unveil([7], options, false, true, map[7 := [Attr("data-src", "a.png")]], w, geom);
    assert u.handler.settings.threshold == 1000 && u.handler.settings.delay == 200;
    var r := InViewOf([7], w, geom, 1000);
    assert 7 in r && |r| <= 1;
    assert r == [7];
    assert u.placeholders == [7] && u.timers == [[7]] && 7 !in u.fired;
    u.TimerFire(w, geom);
    assert 7 in u.fired;
    assert u.placeholders == [7];
    u.Scan(w, geom);
    assert u.placeholders == [];
  }
}
