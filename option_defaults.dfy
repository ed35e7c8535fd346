/** Option defaulting of `_patchOptionValues`: `setDefaultOptionValue`, the
    three default sources (allow-null names, the view's `defaultProps`, the
    two-way bindings) and the unwrapping of element-typed options. */
module OptionDefaults {
  import opened Values

  /** One entry of `_propsInfo.twoWay`: `[name, defaultValue, eventName]`. */
  datatype TwoWayProp = TwoWayProp(name: string, defaultValue: Value, eventName: string)

  /** A default source flattened to the order it is applied in: each entry
      names an option and the value its getter yields for it. */
  type Entries = seq<(string, Value)>

  /** `setDefaultOptionValue(options, getter)(name)`: the option is written
      only when the key is present and holds `undefined`; absent keys, null
      and other defined values, and every other key stay as they were. */
  function SetDefault(options: Props, name: string, fallback: Value): (r: Props)
    ensures r.Keys == options.Keys
    ensures forall k :: k in options && k != name ==> r[k] == options[k]
    ensures name in options && options[name] == Undefined ==> r[name] == fallback
    ensures name in options && options[name] != Undefined ==> r[name] == options[name]
  {
    if name in options && options[name] == Undefined then options[name := fallback] else options
  }

  /** `entries.forEach(setDefaultOptionValue(...))`, entry by entry. */
  function FillFrom(options: Props, entries: Entries): (r: Props)
    ensures r.Keys == options.Keys
    decreases |entries|
  {
    if |entries| == 0 then options
    else
      var last := entries[|entries| - 1];
      SetDefault(FillFrom(options, entries[..|entries| - 1]), last.0, last.1)
  }

  /** The value of the earliest entry for `k` that is not `undefined`, or
      `undefined` when there is none. */
  function FirstDefault(entries: Entries, k: string): Value
    decreases |entries|
  {
    if |entries| == 0 then Undefined
    else
      var p := FirstDefault(entries[..|entries| - 1], k);
      var last := entries[|entries| - 1];
      if p != Undefined then p
      else if last.0 == k then last.1
      else Undefined
  }

  /** An option that is present keeps a defined value and otherwise receives
      the earliest applicable default; no key is added or removed. */
  lemma {:induction false} FillFromAt(options: Props, entries: Entries, k: string)
    requires k in options
    ensures FillFrom(options, entries)[k]
            == if options[k] == Undefined then FirstDefault(entries, k) else options[k]
    decreases |entries|
  {
    if |entries| > 0 {
      FillFromAt(options, entries[..|entries| - 1], k);
    }
  }

  /** `FirstDefault` picks exactly the earliest entry for `k` whose value is
      defined, and is `undefined` when every entry for `k` is. */
  lemma {:induction false} FirstDefaultEarliest(entries: Entries, k: string)
    ensures forall i :: 0 <= i < |entries| && entries[i].0 == k && entries[i].1 != Undefined
              && (forall j :: 0 <= j < i && entries[j].0 == k ==> entries[j].1 == Undefined)
              ==> FirstDefault(entries, k) == entries[i].1
    ensures (forall i :: 0 <= i < |entries| && entries[i].0 == k ==> entries[i].1 == Undefined)
              ==> FirstDefault(entries, k) == Undefined
    decreases |entries|
  {
    if |entries| > 0 {
      var init := entries[..|entries| - 1];
      FirstDefaultEarliest(init, k);
      forall i | 0 <= i < |entries| && entries[i].0 == k && entries[i].1 != Undefined
          && (forall j :: 0 <= j < i && entries[j].0 == k ==> entries[j].1 == Undefined)
        ensures FirstDefault(entries, k) == entries[i].1
      {
        if i < |init| {
          assert init[i] == entries[i];
          assert forall j :: 0 <= j < i && init[j].0 == k ==> init[j].1 == Undefined;
        } else {
          assert forall j :: 0 <= j < |init| && init[j].0 == k ==> init[j].1 == Undefined;
        }
      }
    }
  }

  /** Sources applied one after the other: the earlier one wins wherever it
      has a default. */
  lemma {:induction false} FirstDefaultAppend(a: Entries, b: Entries, k: string)
    ensures FirstDefault(a + b, k)
            == if FirstDefault(a, k) != Undefined then FirstDefault(a, k) else FirstDefault(b, k)
    decreases |b|
  {
    if |b| == 0 {
      assert a + b == a;
    } else {
      assert (a + b)[..|a + b| - 1] == a + b[..|b| - 1];
      FirstDefaultAppend(a, b[..|b| - 1], k);
    }
  }

  /** `allowNull.forEach(setDefaultOptionValue(options, () => null))`. */
  function NullEntries(names: seq<string>): (e: Entries)
    ensures |e| == |names|
    ensures forall i :: 0 <= i < |names| ==> e[i] == (names[i], Null)
  {
    seq(|names|, i requires 0 <= i < |names| => (names[i], Null))
  }

  /** `twoWay.forEach(([name, defaultValue]) => ...)`. */
  function TwoWayEntries(twoWay: seq<TwoWayProp>): (e: Entries)
    ensures |e| == |twoWay|
    ensures forall i :: 0 <= i < |twoWay| ==> e[i] == (twoWay[i].name, twoWay[i].defaultValue)
  {
    seq(|twoWay|, i requires 0 <= i < |twoWay| => (twoWay[i].name, twoWay[i].defaultValue))
  }

  /** An allow-null name defaults to null, any other name to nothing. */
  lemma {:induction false} NullDefault(names: seq<string>, k: string)
    ensures FirstDefault(NullEntries(names), k) == if k in names then Null else Undefined
    decreases |names|
  {
    if |names| > 0 {
      var init := names[..|names| - 1];
      NullDefault(init, k);
      assert NullEntries(names)[..|names| - 1] == NullEntries(init);
      assert names == init + [names[|names| - 1]];
    }
  }

  /** `Object.keys(defaultProps).forEach(setDefaultOptionValue(...))` once the
      names in `done` have been visited; the keys of a map are distinct, so
      the order of the visits does not matter. */
  function FillFromMap(options: Props, defaults: Props, done: set<string>): (r: Props)
    ensures r.Keys == options.Keys
  {
    map k | k in options ::
      if k in done && k in defaults && options[k] == Undefined then defaults[k] else options[k]
  }

  /** Before any name of `defaultProps` is visited nothing has changed. */
  lemma FillFromMapNone(options: Props, defaults: Props)
    ensures FillFromMap(options, defaults, {}) == options
  {
    var r := FillFromMap(options, defaults, {});
    assert forall k :: k in r ==> r[k] == options[k];
  }

  /** Visiting one more name of `defaultProps` is one `setDefaultOptionValue`
      call. */
  lemma FillFromMapStep(options: Props, defaults: Props, done: set<string>, name: string)
    requires name in defaults && name !in done
    ensures FillFromMap(options, defaults, done + {name})
            == SetDefault(FillFromMap(options, defaults, done), name, defaults[name])
  {
    var lhs := FillFromMap(options, defaults, done + {name});
    var rhs := SetDefault(FillFromMap(options, defaults, done), name, defaults[name]);
    assert forall k :: k in lhs ==> lhs[k] == rhs[k];
  }

  /** The three default sources in the order `_patchOptionValues` applies
      them. */
  function DefaultsFilled(options: Props, allowNull: seq<string>, defaultProps: Props,
                          twoWay: seq<TwoWayProp>): Props
  {
    FillFrom(FillFromMap(FillFrom(options, NullEntries(allowNull)), defaultProps, defaultProps.Keys),
             TwoWayEntries(twoWay))
  }

  /** The precedence of the default sources: a defined option is kept; an
      undefined one becomes null if its name allows null, else the view's
      default prop if that is defined, else the earliest defined two-way
      default; keys are neither added nor removed. */
  lemma DefaultPrecedence(options: Props, allowNull: seq<string>, defaultProps: Props,
                          twoWay: seq<TwoWayProp>, k: string)
    ensures DefaultsFilled(options, allowNull, defaultProps, twoWay).Keys == options.Keys
    ensures k in options ==>
      DefaultsFilled(options, allowNull, defaultProps, twoWay)[k]
      == if options[k] != Undefined then options[k]
         else if k in allowNull then Null
         else if k in defaultProps && defaultProps[k] != Undefined then defaultProps[k]
         else FirstDefault(TwoWayEntries(twoWay), k)
  {
    if k in options {
      var o1 := FillFrom(options, NullEntries(allowNull));
      var o2 := FillFromMap(o1, defaultProps, defaultProps.Keys);
      FillFromAt(options, NullEntries(allowNull), k);
      NullDefault(allowNull, k);
      FillFromAt(o2, TwoWayEntries(twoWay), k);
    }
  }

  // ----- element-typed options -----

  /** `_patchElementParam`: `asNode` stands for the jQuery wrapping and
      `.get(0)` with its `nodeType` test; it yields the DOM node a value
      denotes, or nothing when wrapping throws or finds no node. The value is
      replaced by its node, and returned unchanged when there is none. */
  function PatchElementParam(v: Value, asNode: Value -> Option<Value>): (r: Value)
    ensures asNode(v).None? ==> r == v
    ensures asNode(v).Some? ==> r == asNode(v).value
  {
    match asNode(v)
    case Some(node) => node
    case None => v
  }

  /** `elements.forEach(name => { if (name in options) ... })`. */
  function PatchElements(options: Props, elements: seq<string>, asNode: Value -> Option<Value>): (r: Props)
    ensures r.Keys == options.Keys
    decreases |elements|
  {
    if |elements| == 0 then options
    else
      var p := PatchElements(options, elements[..|elements| - 1], asNode);
      var name := elements[|elements| - 1];
      if name in p then p[name := PatchElementParam(p[name], asNode)] else p
  }

  /** `_patchElementParam` applied `n` times. */
  function PatchedTimes(v: Value, n: nat, asNode: Value -> Option<Value>): Value
  {
    if n == 0 then v else PatchElementParam(PatchedTimes(v, n - 1, asNode), asNode)
  }

  /** An option is unwrapped once per occurrence of its name in `elements`
      and only then: options not listed are untouched, and names not among
      the options are not added. */
  lemma {:induction false} PatchElementsAt(options: Props, elements: seq<string>,
                                           asNode: Value -> Option<Value>, k: string)
    requires k in options
    ensures PatchElements(options, elements, asNode)[k]
            == PatchedTimes(options[k], multiset(elements)[k], asNode)
    decreases |elements|
  {
    if |elements| > 0 {
      var init := elements[..|elements| - 1];
      PatchElementsAt(options, init, asNode, k);
      assert elements == init + [elements[|elements| - 1]];
      assert multiset(elements) == multiset(init) + multiset{elements[|elements| - 1]};
    }
  }

  /** All of `_patchOptionValues`: the three default sources, then the
      element unwrapping. */
  function PatchedOptions(options: Props, allowNull: seq<string>, defaultProps: Props,
                          twoWay: seq<TwoWayProp>, elements: seq<string>,
                          asNode: Value -> Option<Value>): Props
  {
    PatchElements(DefaultsFilled(options, allowNull, defaultProps, twoWay), elements, asNode)
  }
}
