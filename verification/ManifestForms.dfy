/** The pages of publish-custom.html as forms, the loops of publish-custom.js over them, and when a whole manifest comes
    back from an untouched edit page. */
module ManifestForms {
  import opened Prelude
  import opened Text
  import opened EditForm
  import opened EditFormRoundTrip

  // ----- A form

  function Get<F(==)>(entry: map<F, Value>, f: F): Option<Value> {
    if f in entry then Some(entry[f]) else None
  }

  /** The names of a form's controls in page order, and what each is. */
  datatype Layout<!F> = Layout(names: seq<F>, control: F -> Control)

  function Filled<F(==)>(codec: Codec, l: Layout<F>, entry: map<F, Value>): (values: map<F, string>)
    ensures values.Keys == set f | f in l.names
  {
    map f | f in l.names :: Shown(codec, l.control(f), Get(entry, f))
  }

  /** Filled as far as the first `n` names. */
  function FilledTo<F(==)>(codec: Codec, l: Layout<F>, entry: map<F, Value>, n: nat): map<F, string>
    requires n <= |l.names|
  {
    map f | f in l.names ::
      if f in l.names[..n] then Shown(codec, l.control(f), Get(entry, f)) else l.control(f).initial
  }

  lemma FilledEnds<F>(codec: Codec, l: Layout<F>, entry: map<F, Value>)
    ensures FilledTo(codec, l, entry, 0) == map f | f in l.names :: l.control(f).initial
    ensures FilledTo(codec, l, entry, |l.names|) == Filled(codec, l, entry)
  {
    assert l.names[..|l.names|] == l.names;
    hide Shown;
  }

  lemma FilledStep<F>(codec: Codec, l: Layout<F>, entry: map<F, Value>, n: nat)
    requires n < |l.names|
    ensures var f, before := l.names[n], FilledTo(codec, l, entry, n); var c := l.control(f);
      && f in before && (before[f] == c.initial || before[f] == Shown(codec, c, Get(entry, f)))
      && FilledTo(codec, l, entry, n + 1) == before[f := Shown(codec, c, Get(entry, f))]
  {
    assert l.names[..n + 1] == l.names[..n] + [l.names[n]];
    hide Shown, Get;
  }

  function Payload<F(==)>(codec: Codec, l: Layout<F>, values: map<F, string>): map<F, Value>
    requires forall f :: f in l.names ==> f in values
  {
    map f | f in l.names && Read(codec, l.control(f).kind, values[f]).Some?
      :: Read(codec, l.control(f).kind, values[f]).value
  }

  class Form<F(==)> {
    const layout: Layout<F>
    var values: map<F, string>

    /** A fresh copy of the template. */
    constructor (layout: Layout<F>)
      ensures this.layout == layout && values == map f | f in layout.names :: layout.control(f).initial
    {
      this.layout := layout;
      values := map f | f in layout.names :: layout.control(f).initial;
    }

    /** One control is written if populateFromManifest knows it and the entry has it; else it keeps its initial
        value. */
    method FillOne(codec: Codec, entry: map<F, Value>, f: F)
      requires var c := layout.control(f); f in values && values[f] in {c.initial, Shown(codec, c, Get(entry, f))}
      modifies this
      ensures values == old(values)[f := Shown(codec, layout.control(f), Get(entry, f))]
    {
      hide Written, Held;
      var c := layout.control(f);
      if c.populated && f in entry {
        var text := Written(codec, c.kind, entry[f]);
        if text.Some? {
          values := values[f := Held(c.kind, text.value)];
        }
      }
    }

    /** populateFromManifest. */
    method Fill(codec: Codec, entry: map<F, Value>)
      requires values == map f | f in layout.names :: layout.control(f).initial
      modifies this
      ensures values == Filled(codec, layout, entry)
    {
      FilledEnds(codec, layout, entry);
      hide *;
      for i := 0 to |layout.names|
        invariant values == FilledTo(codec, layout, entry, i)
      {
        FilledStep(codec, layout, entry, i);
        FillOne(codec, entry, layout.names[i]);
      }
    }

    /** buildPayload and buildInstallerEntry: a key for every control that holds something. */
    method Save(codec: Codec) returns (payload: map<F, Value>)
      requires forall f :: f in layout.names ==> f in values
      ensures payload == Payload(codec, layout, values)
    {
      hide Read;
      payload := map[];
      for i := 0 to |layout.names|
        invariant payload == Payload(codec, Layout(layout.names[..i], layout.control), values)
      {
        var f := layout.names[i];
        var value := Read(codec, layout.control(f).kind, values[f]);
        if value.Some? {
          payload := payload[f := value.value];
        }
        assert layout.names[..i + 1] == layout.names[..i] + [f];
      }
      assert layout.names[..|layout.names|] == layout.names;
    }
  }

  ghost predicate Typable<F(!new)>(l: Layout<F>, entry: map<F, Value>) {
    && (forall f :: f in l.names ==> WellFormed(l.control(f)))
    && (forall f :: f in entry ==> f in l.names && Typed(l.control(f).kind, entry[f]))
  }

  predicate AllSurvive<F(==)>(l: Layout<F>, entry: map<F, Value>) {
    forall f :: f in l.names ==> Survives(l.control(f), Get(entry, f))
  }

  /** Filling a form and saving it gives the same entry back exactly when every control's value survives. */
  lemma FormRoundTrip<F(!new)>(codec: Codec, l: Layout<F>, entry: map<F, Value>)
    requires Faithful(codec) && Typable(l, entry)
    ensures Payload(codec, l, Filled(codec, l, entry)) == entry <==> AllSurvive(l, entry)
  {
    var filled := Filled(codec, l, entry);
    var back := Payload(codec, l, filled);
    forall f | f in l.names
      ensures Get(back, f) == Get(entry, f) <==> Survives(l.control(f), Get(entry, f))
    {
      SurvivesIff(codec, l.control(f), Get(entry, f));
      hide Read, Shown, Survives;
    }
    hide Survives, Payload, Filled, Typed, WellFormed;
    if AllSurvive(l, entry) {
      SameEntries(l, back, entry);
    }
  }

  lemma SameEntries<F(!new)>(l: Layout<F>, a: map<F, Value>, b: map<F, Value>)
    requires forall f :: f in l.names ==> Get(a, f) == Get(b, f)
    requires forall f :: f in a || f in b ==> f in l.names
    ensures a == b
  {
    forall f | f in a || f in b
      ensures f in a && f in b && a[f] == b[f]
    {
      assert Get(a, f) == Get(b, f);
    }
  }
}
