/** The view runner: which views of the registry run for a configuration, and
    in what order. The registry is given as its view names in registration
    order; what each view then produces is left to the view. */
module Views {
  import opened Text
  import opened Grouping

  /** The value of a view's key in the "views" section of the configuration:
      the literal `false`, `null`, `true`, or anything else (an object, a
      number, a string). */
  datatype ConfigValue = FalseValue | NullValue | TrueValue | OtherValue

  /** The one view that runs when the configuration does not mention it. */
  const DefaultView: string := "interfaceTables"

  /** Whether a view runs under the "views" section of the configuration (an
      empty map when the section is missing). */
  function Enabled(name: string, views: map<string, ConfigValue>): (r: bool)
    ensures name !in views ==> (r <==> name == DefaultView)
    ensures name in views ==> (r <==> views[name] != FalseValue)
  {
    var default := name == DefaultView;
    if name !in views then default
    else if views[name] == FalseValue then false
    else true
  }

  /** Only the literal `false` switches a mentioned view off: `null`, `true` and
      any other value switch it on, the default view included. */
  lemma OnlyFalseDisables(name: string, views: map<string, ConfigValue>)
    requires name in views
    ensures views[name] in {NullValue, TrueValue, OtherValue} ==> Enabled(name, views)
    ensures views[name] == FalseValue ==> !Enabled(name, views)
  {
  }

  function EnabledIn(views: map<string, ConfigValue>): string -> bool {
    name => Enabled(name, views)
  }

  /** `run_views(model, output_dir, model_dir, config)`: the names of the views
      it runs, in the order it runs them. */
  method RunViews(registry: seq<string>, views: map<string, ConfigValue>) returns (ran: seq<string>)
    ensures ran == Kept(registry, EnabledIn(views))
  {
    ran := [];
    for i := 0 to |registry|
      invariant ran == Kept(registry[..i], EnabledIn(views))
    {
      assert registry[..i + 1][..i] == registry[..i];
      var name := registry[i];
      var default := name == DefaultView;
      var enabled := if name !in views then default else views[name] != FalseValue;
      if enabled {
        ran := ran + [name];
      }
    }
    assert registry[..|registry|] == registry;
  }

  /** A filter of a list without repeats has no repeats. */
  lemma {:induction false} KeptDistinct<T(!new)>(xs: seq<T>, keep: T -> bool)
    requires forall i, j :: 0 <= i < j < |xs| ==> xs[i] != xs[j]
    ensures forall i, j :: 0 <= i < j < |Kept(xs, keep)| ==> Kept(xs, keep)[i] != Kept(xs, keep)[j]
    decreases |xs|
  {
    if xs != [] {
      var n := |xs| - 1;
      KeptDistinct(xs[..n], keep);
      var front := Kept(xs[..n], keep);
      assert xs[n] !in xs[..n];
      assert xs[n] !in front;
      assert Kept(xs, keep) == front + (if keep(xs[n]) then [xs[n]] else []);
    }
  }

  /** A filter keeps the order of the list: two kept elements come in the order
      of their positions in it. */
  lemma {:induction false} KeptInOrder<T(!new)>(xs: seq<T>, keep: T -> bool, a: nat, b: nat)
    requires a < b < |Kept(xs, keep)|
    ensures exists p, q :: 0 <= p < q < |xs| && xs[p] == Kept(xs, keep)[a] && xs[q] == Kept(xs, keep)[b]
    decreases |xs|
  {
    var n := |xs| - 1;
    var front := Kept(xs[..n], keep);
    if b < |front| {
      KeptInOrder(xs[..n], keep, a, b);
      var p, q :| 0 <= p < q < n && xs[..n][p] == front[a] && xs[..n][q] == front[b];
      assert xs[p] == Kept(xs, keep)[a] && xs[q] == Kept(xs, keep)[b];
    } else {
      assert Kept(xs, keep) == front + (if keep(xs[n]) then [xs[n]] else []);
      assert Kept(xs, keep)[b] == xs[n];
      assert front[a] in front;
      assert front[a] in xs[..n];
      var p :| 0 <= p < n && xs[..n][p] == front[a];
      assert xs[p] == Kept(xs, keep)[a];
    }
  }

  /** The views that run are the enabled ones, each once, in registry order. */
  lemma RunViewsMeaning(registry: seq<string>, views: map<string, ConfigValue>, a: nat, b: nat)
    requires Distinct(registry)
    ensures forall name :: name in Kept(registry, EnabledIn(views)) <==> name in registry && Enabled(name, views)
    ensures Distinct(Kept(registry, EnabledIn(views)))
    ensures a < b < |Kept(registry, EnabledIn(views))| ==>
      exists p, q :: 0 <= p < q < |registry| &&
        registry[p] == Kept(registry, EnabledIn(views))[a] && registry[q] == Kept(registry, EnabledIn(views))[b]
  {
    KeptDistinct(registry, EnabledIn(views));
    if a < b < |Kept(registry, EnabledIn(views))| {
      KeptInOrder(registry, EnabledIn(views), a, b);
    }
  }

  /** Without a "views" section only the default view runs, if registered. */
  lemma {:induction false} DefaultOnly(registry: seq<string>)
    requires Distinct(registry)
    ensures Kept(registry, EnabledIn(map[])) == if DefaultView in registry then [DefaultView] else []
    decreases |registry|
  {
    if registry != [] {
      var n := |registry| - 1;
      assert registry == registry[..n] + [registry[n]];
      DefaultOnly(registry[..n]);
      if registry[n] == DefaultView {
        assert DefaultView !in registry[..n];
      }
    }
  }
}
