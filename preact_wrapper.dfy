/** The bookkeeping of `PreactWrapper`: mount state, cached element
    attributes and classes, the props handed to the renderer, and the action
    and key-handler registries. The renderer itself is a log of calls. */
module PreactWrapperModel {
  import opened Values
  import ClassTokens
  import OptionDefaults
  import ContainerPosition
  import KeyDispatch

  type NodeId = ContainerPosition.NodeId

  /** Where the host element sits. */
  datatype Placement =
    | Attached(siblings: seq<NodeId>)  // a child of a parent, whose element children these are
    | Detached                         // no parent node
    | Staged                           // left inside the staging fragment by a parentless first mount

  /** One call into the renderer: the first mount (`hydrate` into the staging
      node) or an in-place `render` on the container. */
  datatype RenderCall = Hydrate(props: Props) | Rerender(props: Props)

  /** Calls into the host widget framework, in order. */
  datatype HostRequest = BaseOptionChanged(name: Option<string>) | Invalidate | Refresh

  /** What the `elementAttr` getter reads from the host element: its
      specified attributes, its inline style and `getAttribute('class')`. */
  datatype HostElement = HostElement(attributes: map<string, string>, style: map<string, string>,
                                     classAttr: Option<string>)

  /** `getAttribute('class') || ''`. */
  function HostClass(host: HostElement): string
  {
    if host.classAttr.Some? then host.classAttr.value else ""
  }

  /** The first snapshot of the specified attributes. */
  function AttributeSnapshot(host: HostElement): Props
  {
    map k | k in host.attributes :: Str(host.attributes[k])
  }

  /** The inline style, read afresh on every access. */
  function StyleObject(host: HostElement): Value
  {
    Obj(map k | k in host.style :: Str(host.style[k]))
  }

  /** The own properties `...options.elementAttr` spreads. */
  function AttrFields(v: Value): Props
  {
    match v
    case Obj(fields) => fields
    case _ => map[]
  }

  /** `(attrs.class || '')`. */
  function ClassOf(attrs: Props): string
  {
    if "class" in attrs && attrs["class"].Str? then attrs["class"].s else ""
  }

  function ActionProps(actions: map<string, Handler>): (r: Props)
    ensures r.Keys == actions.Keys
    ensures forall k :: k in actions ==> r[k] == Fn(actions[k])
  {
    map k | k in actions :: Fn(actions[k])
  }

  /** The object literal `getProps` returns: later sources override earlier
      ones, so the actions win over everything, `className` and `class` over
      both attribute objects, the option's `elementAttr` over the host's, and
      the host's over the patched options. */
  function MergeProps(options: Props, hostAttr: Props, optionAttr: Props, className: string,
                      actions: map<string, Handler>): (r: Props)
    ensures r.Keys == options.Keys + hostAttr.Keys + optionAttr.Keys + {"className", "class"} + actions.Keys
    ensures forall k :: k in actions ==> r[k] == Fn(actions[k])
    ensures "className" !in actions ==> r["className"] == Str(className)
    ensures "class" !in actions ==> r["class"] == Str("")
    ensures forall k :: k in optionAttr && k !in actions && k != "class" && k != "className"
              ==> r[k] == optionAttr[k]
    ensures forall k :: k in hostAttr && k !in optionAttr && k !in actions && k != "class" && k != "className"
              ==> r[k] == hostAttr[k]
    ensures forall k :: (k in options && k !in hostAttr && k !in optionAttr && k !in actions
                         && k != "class" && k != "className") ==> r[k] == options[k]
  {
    var named := options + hostAttr + optionAttr + map["className" := Str(className), "class" := Str("")];
    MergeFacts(options, hostAttr, optionAttr, named, className);
    named + ActionProps(actions)
  }

  /** The object literal before the actions are spread: `className` and
      `class` over the option's `elementAttr`, that over the host attributes,
      those over the options. */
  lemma MergeFacts(options: Props, hostAttr: Props, optionAttr: Props, named: Props, className: string)
    requires named == options + hostAttr + optionAttr + map["className" := Str(className), "class" := Str("")]
    ensures named.Keys == options.Keys + hostAttr.Keys + optionAttr.Keys + {"className", "class"}
    ensures named["className"] == Str(className) && named["class"] == Str("")
    ensures forall k :: k in optionAttr && k != "class" && k != "className" ==> named[k] == optionAttr[k]
    ensures forall k :: k in hostAttr && k !in optionAttr && k != "class" && k != "className"
              ==> named[k] == hostAttr[k]
    ensures forall k :: (k in options && k !in hostAttr && k !in optionAttr
                         && k != "class" && k != "className") ==> named[k] == options[k]
  {
  }

  /** `getProps` once the options are patched and the host attributes read:
      reading `options.elementAttr.class` throws when the option is
      undefined or null. */
  function PropsFor(options: Props, hostAttr: Props, actions: map<string, Handler>): (r: Result<Props, Error>)
    ensures r.Failure? <==> "elementAttr" !in options || options["elementAttr"] in {Undefined, Null}
    ensures r.Success? ==>
      var optionAttr := AttrFields(options["elementAttr"]);
      r.value == MergeProps(options, hostAttr, optionAttr,
                            ClassTokens.ClassName(ClassOf(hostAttr), ClassOf(optionAttr)), actions)
  {
    var elementAttr := if "elementAttr" in options then options["elementAttr"] else Undefined;
    if elementAttr == Undefined || elementAttr == Null then
      Failure(TypeError("Cannot read property 'class' of " + (if elementAttr == Null then "null" else "undefined")))
    else
      var optionAttr := AttrFields(elementAttr);
      Success(MergeProps(options, hostAttr, optionAttr,
                         ClassTokens.ClassName(ClassOf(hostAttr), ClassOf(optionAttr)), actions))
  }

  /** The renderer calls a sequence of render passes makes, starting mounted
      or not: only a first pass while unmounted hydrates. */
  function RenderCalls(mounted: bool, passes: seq<Props>): (calls: seq<RenderCall>)
    ensures |calls| == |passes|
    ensures forall i :: 0 <= i < |passes| ==> calls[i].props == passes[i]
    ensures forall i :: 0 <= i < |passes| ==> (calls[i].Hydrate? <==> !mounted && i == 0)
    decreases |passes|
  {
    if |passes| == 0 then []
    else [if mounted then Rerender(passes[0]) else Hydrate(passes[0])] + RenderCalls(true, passes[1..])
  }

  /** The props of the render passes: with a refresh requested, the
      neutralised props first. */
  function Passes(refresh: bool, props: Props): (passes: seq<Props>)
    ensures |passes| == if refresh then 2 else 1
    ensures passes[|passes| - 1] == props
    ensures refresh ==> passes[0] == RefreshProps(props)
  {
    if refresh then [RefreshProps(props), props] else [props]
  }

  /** The props of the extra pass a requested refresh makes first: sizing,
      style, class and children neutralised, everything else as given. */
  function RefreshProps(props: Props): (r: Props)
    ensures r.Keys == props.Keys + {"width", "height", "style", "className", "children"}
    ensures r["width"] == Null && r["height"] == Null && r["children"] == Null
    ensures r["style"] == Str("") && r["className"] == Str("")
    ensures forall k :: k in props && k !in {"width", "height", "style", "className", "children"}
              ==> r[k] == props[k]
  {
    props["width" := Null]["height" := Null]["style" := Str("")]["className" := Str("")]["children" := Null]
  }

  /** The attribute object the getter returns: its snapshot with the
      current style and the computed class written over it. */
  function Refreshed(snapshot: Props, host: HostElement, stored: string): (r: Props)
    ensures r.Keys == snapshot.Keys + {"style", "class"}
    ensures r["style"] == StyleObject(host)
    ensures r["class"] == Str(ClassTokens.ElementClass(HostClass(host), stored))
    ensures forall k :: k in snapshot && k != "style" && k != "class" ==> r[k] == snapshot[k]
  {
    snapshot["style" := StyleObject(host)]["class" := Str(ClassTokens.ElementClass(HostClass(host), stored))]
  }

  /** Refreshing an object the getter returned changes nothing. */
  lemma RefreshedTwice(snapshot: Props, host: HostElement, stored: string)
    ensures Refreshed(Refreshed(snapshot, host, stored), host, stored) == Refreshed(snapshot, host, stored)
  {
    var once := Refreshed(snapshot, host, stored);
    var twice := Refreshed(once, host, stored);
    assert forall k :: k in twice ==> twice[k] == once[k];
  }

  /** The `originalEvent` of a key-down, whose `cancel` flag the wrapper
      may set. */
  class DomEvent {
    var cancel: bool

    constructor (cancel: bool)
      ensures this.cancel == cancel
    {
      this.cancel := cancel;
    }
  }

  class PreactWrapper {
    // What the generated subclass and its view component declare.
    const allowNull: seq<string>
    const twoWay: seq<OptionDefaults.TwoWayProp>
    const elements: seq<string>
    const defaultProps: Props
    /** `_getActionConfigs()`: each configured event, with whether its
        configuration is truthy. */
    const actionConfigs: map<string, bool>
    /** The host element and the `_viewRef` object. */
    const container: NodeId
    const viewRef: Value

    /** `this.option()`: the host framework's option store. */
    var options: Props
    var placement: Placement
    var preactReplaced: bool
    var shouldRefresh: bool
    var storedClasses: Option<string>
    /** `_elementAttr`: the attribute snapshot, absent before the first
        access of the getter. */
    var elementAttr: Option<Props>
    var actionsMap: map<string, Handler>
    var supportedKeys: map<string, Handler>
    var renders: seq<RenderCall>
    var hostRequests: seq<HostRequest>

    /** The mount state machine only moves from unmounted to mounted: the
        first render, and only the first, was the staging `hydrate`. The
        container is a child of its parent once, and the two caches of the
        `elementAttr` getter are filled together. */
    ghost predicate Valid()
      reads this
    {
      && (preactReplaced <==> |renders| > 0)
      && (forall i :: 0 <= i < |renders| ==> (renders[i].Hydrate? <==> i == 0))
      && (placement.Attached? ==> multiset(placement.siblings)[container] == 1)
      && (placement.Staged? ==> preactReplaced)
      && (storedClasses.Some? <==> elementAttr.Some?)
    }

    /** `_init`: empty registries, then one derived action per configured
        event. */
    constructor (allowNull: seq<string>, twoWay: seq<OptionDefaults.TwoWayProp>, elements: seq<string>,
                 defaultProps: Props, actionConfigs: map<string, bool>,
                 container: NodeId, placement: Placement, options: Props, viewRef: Value)
      requires placement.Attached? ==> multiset(placement.siblings)[container] == 1
      requires !placement.Staged?
      ensures Valid()
      ensures this.allowNull == allowNull && this.twoWay == twoWay && this.elements == elements
      ensures this.defaultProps == defaultProps && this.actionConfigs == actionConfigs
      ensures this.container == container && this.placement == placement
      ensures this.options == options && this.viewRef == viewRef
      ensures !preactReplaced && !shouldRefresh && renders == [] && hostRequests == []
      ensures storedClasses == None && elementAttr == None
      ensures actionsMap.Keys == actionConfigs.Keys
      ensures forall e :: e in actionsMap ==> actionsMap[e] == FromOption(e)
      ensures supportedKeys == map[]
    {
      this.allowNull, this.twoWay, this.elements := allowNull, twoWay, elements;
      this.defaultProps, this.actionConfigs := defaultProps, actionConfigs;
      this.container, this.placement := container, placement;
      this.options, this.viewRef := options, viewRef;
      preactReplaced, shouldRefresh := false, false;
      storedClasses, elementAttr := None, None;
      renders, hostRequests := [], [];
      actionsMap, supportedKeys := map[], map[];
      new;
      var pending := actionConfigs.Keys;
      while pending != {}
        invariant pending <= actionConfigs.Keys
        invariant actionsMap.Keys == actionConfigs.Keys - pending
        invariant forall e :: e in actionsMap ==> actionsMap[e] == FromOption(e)
        invariant Valid() && this.placement == placement && this.options == options
        invariant !preactReplaced && !shouldRefresh && renders == [] && hostRequests == []
        invariant storedClasses == None && elementAttr == None && supportedKeys == map[]
        decreases |pending|
      {
        var name :| name in pending;
        // `this._addAction(name)` with no handler given
        actionsMap := actionsMap[name := FromOption(name)];
        pending := pending - {name};
      }
    }

    // ----- the elementAttr getter -----

    /** The class string the getter stores: the one already stored, else the
        `dx-` tokens of the current class attribute. */
    function StoredNow(host: HostElement): string
      reads this
    {
      if storedClasses.Some? then storedClasses.value else ClassTokens.StoredFrom(HostClass(host))
    }

    /** What the getter returns in the current state. */
    function ElementAttrNow(host: HostElement): Props
      reads this
    {
      var snapshot := if elementAttr.Some? then elementAttr.value else AttributeSnapshot(host);
      Refreshed(snapshot, host, StoredNow(host))
    }

    /** `get elementAttr()`: the attributes are snapshot and the `dx-` classes
        stored on the first access and reused afterwards; the style and the
        class are refreshed on every access, the class being the current
        non-`dx-` tokens followed by the stored ones. A second access in the
        same state returns the same object. */
    method GetElementAttr(host: HostElement) returns (attrs: Props)
      requires Valid()
      modifies this`storedClasses, this`elementAttr
      ensures Valid()
      ensures attrs == old(ElementAttrNow(host)) && elementAttr == Some(attrs)
      ensures storedClasses == Some(old(StoredNow(host)))
      ensures old(storedClasses).Some? ==> storedClasses == old(storedClasses)
      ensures "style" in attrs && attrs["style"] == StyleObject(host)
      ensures "class" in attrs && attrs["class"] == Str(ClassTokens.ElementClass(HostClass(host), storedClasses.value))
      ensures old(elementAttr).None? ==> forall k :: k in host.attributes && k != "style" && k != "class"
                                           ==> k in attrs && attrs[k] == Str(host.attributes[k])
      ensures ElementAttrNow(host) == attrs
      ensures unchanged(this`options, this`actionsMap, this`placement, this`renders, this`preactReplaced,
                        this`shouldRefresh)
    {
      ghost var before := ElementAttrNow(host);
      if elementAttr.None? {
        elementAttr := Some(AttributeSnapshot(host));
      }
      var cssClass := HostClass(host);
      if storedClasses.None? {
        storedClasses := Some(ClassTokens.StoredFrom(cssClass));
      }
      var snapshot := elementAttr.value;
      attrs := Refreshed(snapshot, host, storedClasses.value);
      elementAttr := Some(attrs);
      assert attrs == before;
      RefreshedTwice(snapshot, host, storedClasses.value);
      assert storedClasses.Some? && elementAttr.Some?;
    }

    // ----- props -----

    /** `_patchOptionValues`: allow-null names default to null, then the
        view's `defaultProps`, then the two-way defaults, each only where the
        option is present and undefined; then the element-typed options that
        are present are unwrapped. Each `forEach` is one method below. */
    method PatchOptionValues(opts: Props, asNode: Value -> Option<Value>) returns (patched: Props)
      ensures patched == OptionDefaults.PatchedOptions(opts, allowNull, defaultProps, twoWay, elements, asNode)
    {
      patched := FillAllowNull(opts);
      patched := FillDefaultProps(patched);
      patched := FillTwoWay(patched);
      patched := PatchElementOptions(patched, asNode);
    }

    /** `allowNull.forEach(setDefaultOptionValue(options, () => null))`. */
    method FillAllowNull(opts: Props) returns (patched: Props)
      ensures patched == OptionDefaults.FillFrom(opts, OptionDefaults.NullEntries(allowNull))
    {
      patched := opts;
      ghost var nulls := OptionDefaults.NullEntries(allowNull);
      var i := 0;
      while i < |allowNull|
        invariant 0 <= i <= |allowNull|
        invariant patched == OptionDefaults.FillFrom(opts, nulls[..i])
      {
        assert nulls[..i + 1][..i] == nulls[..i];
        patched := OptionDefaults.SetDefault(patched, allowNull[i], Null);
        i := i + 1;
      }
      assert nulls[..|allowNull|] == nulls;
    }

    /** `Object.keys(defaultProps).forEach(setDefaultOptionValue(...))`. */
    method FillDefaultProps(opts: Props) returns (patched: Props)
      ensures patched == OptionDefaults.FillFromMap(opts, defaultProps, defaultProps.Keys)
    {
      patched := opts;
      var pending := defaultProps.Keys;
      OptionDefaults.FillFromMapNone(opts, defaultProps);
      while pending != {}
        invariant pending <= defaultProps.Keys
        invariant patched == OptionDefaults.FillFromMap(opts, defaultProps, defaultProps.Keys - pending)
        decreases |pending|
      {
        var name :| name in pending;
        OptionDefaults.FillFromMapStep(opts, defaultProps, defaultProps.Keys - pending, name);
        patched := OptionDefaults.SetDefault(patched, name, defaultProps[name]);
        ghost var done := (defaultProps.Keys - pending) + {name};
        pending := pending - {name};
        assert defaultProps.Keys - pending == done;
      }
    }

    /** `twoWay.forEach(([name, defaultValue]) => ...)`. */
    method FillTwoWay(opts: Props) returns (patched: Props)
      ensures patched == OptionDefaults.FillFrom(opts, OptionDefaults.TwoWayEntries(twoWay))
    {
      patched := opts;
      ghost var defaults := OptionDefaults.TwoWayEntries(twoWay);
      var i := 0;
      while i < |twoWay|
        invariant 0 <= i <= |twoWay|
        invariant patched == OptionDefaults.FillFrom(opts, defaults[..i])
      {
        assert defaults[..i + 1][..i] == defaults[..i];
        patched := OptionDefaults.SetDefault(patched, twoWay[i].name, twoWay[i].defaultValue);
        i := i + 1;
      }
      assert defaults[..|twoWay|] == defaults;
    }

    /** `elements.forEach(name => { if (name in options) ... })`. */
    method PatchElementOptions(opts: Props, asNode: Value -> Option<Value>) returns (patched: Props)
      ensures patched == OptionDefaults.PatchElements(opts, elements, asNode)
    {
      patched := opts;
      var i := 0;
      while i < |elements|
        invariant 0 <= i <= |elements|
        invariant patched == OptionDefaults.PatchElements(opts, elements[..i], asNode)
      {
        assert elements[..i + 1][..i] == elements[..i];
        var name := elements[i];
        if name in patched {
          patched := patched[name := OptionDefaults.PatchElementParam(patched[name], asNode)];
        }
        i := i + 1;
      }
      assert elements[..|elements|] == elements;
    }

    /** The props `getProps` yields for the given option store, element
        attributes and actions. */
    function PropsWith(options: Props, attrs: Props, actions: map<string, Handler>,
                       defaultSlot: Value, asNode: Value -> Option<Value>): Result<Props, Error>
    {
      var patched := OptionDefaults.PatchedOptions(options["ref" := viewRef]["children" := defaultSlot],
                                                   allowNull, defaultProps, twoWay, elements, asNode);
      PropsFor(patched, attrs, actions)
    }

    /** The props `getProps` yields in the current state. */
    function CurrentProps(host: HostElement, defaultSlot: Value, asNode: Value -> Option<Value>): Result<Props, Error>
      reads this
    {
      PropsWith(options, ElementAttrNow(host), actionsMap, defaultSlot, asNode)
    }

    /** `getProps`: the option store with the ref and the default slot,
        patched; then the host attributes (read twice, the second time for
        the class); then the merged object. `defaultSlot` stands for
        `_extractDefaultSlot()`. */
    method GetProps(host: HostElement, defaultSlot: Value, asNode: Value -> Option<Value>)
      returns (r: Result<Props, Error>)
      requires Valid()
      modifies this`storedClasses, this`elementAttr
      ensures Valid()
      ensures r == old(CurrentProps(host, defaultSlot, asNode))
      ensures CurrentProps(host, defaultSlot, asNode) == r
      ensures storedClasses == Some(old(StoredNow(host)))
      ensures elementAttr == Some(old(ElementAttrNow(host)))
      ensures unchanged(this`placement, this`renders, this`preactReplaced, this`shouldRefresh)
    {
      var opts := PatchOptionValues(options["ref" := viewRef]["children" := defaultSlot], asNode);
      var hostAttr := GetElementAttr(host);
      // The second access of the getter, for the class: both caches are
      // filled now, so it writes nothing back and returns the same object.
      var again := ElementAttrNow(host);
      r := PropsFor(opts, again, actionsMap);
      assert CurrentProps(host, defaultSlot, asNode) == PropsWith(options, again, actionsMap, defaultSlot, asNode);
    }

    // ----- mounting -----

    /** `_renderPreact`: while unmounted, the container is moved into the
        staging fragment, hydrated there and put back at its recorded index
        among its parent's children (a parentless container stays staged);
        the state becomes mounted for good. Once mounted, every call renders
        in place and leaves the container where it is. */
    method RenderPreact(props: Props)
      requires Valid()
      modifies this`placement, this`renders, this`preactReplaced
      ensures Valid()
      ensures preactReplaced
      ensures renders == old(renders) + [if old(preactReplaced) then Rerender(props) else Hydrate(props)]
      ensures old(placement).Attached? || old(preactReplaced) ==> placement == old(placement)
      ensures !old(preactReplaced) && old(placement).Detached? ==> placement == Staged
    {
      if !preactReplaced {
        var parent := placement;
        var containerPosition := 0;
        if parent.Attached? {
          containerPosition := ContainerPosition.ContainerIndex(parent.siblings, container);
        }
        var remaining := if parent.Attached? then ContainerPosition.Detach(parent.siblings, container) else [];
        placement := Staged;
        renders := renders + [Hydrate(props)];
        if parent.Attached? {
          ContainerPosition.DetachThenInsert(parent.siblings, container);
          placement := Attached(ContainerPosition.InsertContainer(remaining, container, containerPosition));
        }
        preactReplaced := true;
      } else {
        renders := renders + [Rerender(props)];
      }
    }

    /** `_initMarkup`: the props are computed (which can throw, leaving the
        mount state alone), then rendered. */
    method InitMarkup(host: HostElement, defaultSlot: Value, asNode: Value -> Option<Value>)
      returns (error: Option<Error>)
      requires Valid()
      modifies this`storedClasses, this`elementAttr, this`placement, this`renders, this`preactReplaced,
               this`shouldRefresh
      ensures Valid()
      ensures old(CurrentProps(host, defaultSlot, asNode)).Failure? <==> error.Some?
      ensures error.Some? ==> error.value == old(CurrentProps(host, defaultSlot, asNode)).error
      ensures error.Some? ==> renders == old(renders) && shouldRefresh == old(shouldRefresh)
                              && preactReplaced == old(preactReplaced) && placement == old(placement)
      ensures error.None? ==>
        && !shouldRefresh && preactReplaced
        && renders == old(renders) + RenderCalls(old(preactReplaced),
                                                 Passes(old(shouldRefresh), old(CurrentProps(host, defaultSlot, asNode)).value))
      ensures storedClasses == Some(old(StoredNow(host)))
      ensures elementAttr == Some(old(ElementAttrNow(host)))
      ensures old(placement).Attached? || old(preactReplaced) ==> placement == old(placement)
      ensures error.None? && !old(preactReplaced) && old(placement).Detached? ==> placement == Staged
    {
      var r := GetProps(host, defaultSlot, asNode);
      error := RenderResult(r);
    }

    /** The end of `_initMarkup` once `getProps` has run: its error is
        passed on and nothing is rendered, or its props are rendered. */
    method RenderResult(r: Result<Props, Error>) returns (error: Option<Error>)
      requires Valid()
      modifies this`placement, this`renders, this`preactReplaced, this`shouldRefresh
      ensures Valid()
      ensures r.Failure? <==> error.Some?
      ensures error.Some? ==> error.value == r.error
      ensures error.Some? ==> renders == old(renders) && shouldRefresh == old(shouldRefresh)
                              && preactReplaced == old(preactReplaced) && placement == old(placement)
      ensures error.None? ==>
        && !shouldRefresh && preactReplaced
        && renders == old(renders) + RenderCalls(old(preactReplaced), Passes(old(shouldRefresh), r.value))
      ensures old(placement).Attached? || old(preactReplaced) ==> placement == old(placement)
      ensures error.None? && !old(preactReplaced) && old(placement).Detached? ==> placement == Staged
      ensures unchanged(this`storedClasses, this`elementAttr)
    {
      if r.Failure? {
        error := Some(r.error);
      } else {
        error := None;
        RenderPasses(r.value);
      }
    }

    /** The rendering of `_initMarkup`: a requested refresh clears the
        request and first renders with neutralised props; then the props
        themselves are rendered. */
    method RenderPasses(props: Props)
      requires Valid()
      modifies this`placement, this`renders, this`preactReplaced, this`shouldRefresh
      ensures Valid()
      ensures !shouldRefresh && preactReplaced
      ensures renders == old(renders) + RenderCalls(old(preactReplaced), Passes(old(shouldRefresh), props))
      ensures old(placement).Attached? || old(preactReplaced) ==> placement == old(placement)
      ensures !old(preactReplaced) && old(placement).Detached? ==> placement == Staged
    {
      ghost var rendersBefore, mounted := renders, preactReplaced;
      if shouldRefresh {
        shouldRefresh := false;
        var neutral := RefreshProps(props);
        ghost var first := if mounted then Rerender(neutral) else Hydrate(neutral);
        RenderPreact(neutral);
        RenderPreact(props);
        assert [neutral, props][1..] == [props];
        assert RenderCalls(mounted, [neutral, props]) == [first, Rerender(props)];
      } else {
        RenderPreact(props);
        assert [props][1..] == [];
      }
    }

    /** `repaint`: request a refresh and ask the host framework for one. */
    method Repaint()
      modifies this`shouldRefresh, this`hostRequests
      ensures shouldRefresh
      ensures hostRequests == old(hostRequests) + [Refresh]
    {
      shouldRefresh := true;
      hostRequests := hostRequests + [Refresh];
    }

    // ----- registries -----

    /** `_addAction`: the given handler, or else the one derived from the
        event's action configuration, replaces whatever the event had; no
        other event changes. */
    method AddAction(event: string, action: Option<Handler>)
      modifies this`actionsMap
      ensures actionsMap.Keys == old(actionsMap).Keys + {event}
      ensures actionsMap[event] == if action.Some? then action.value else FromOption(event)
      ensures forall e :: e in old(actionsMap) && e != event ==> actionsMap[e] == old(actionsMap)[e]
    {
      var handler := if action.Some? then action.value else FromOption(event);
      actionsMap := actionsMap[event := handler];
    }

    /** `_optionChanged`: an option naming an event with a truthy action
        configuration re-derives that action; then the base class is told
        and an invalidation requested. */
    method OptionChanged(name: Option<string>)
      modifies this`actionsMap, this`hostRequests
      ensures name.Some? && name.value != "" && name.value in actionConfigs && actionConfigs[name.value]
              ==> actionsMap == old(actionsMap)[name.value := FromOption(name.value)]
      ensures !(name.Some? && name.value != "" && name.value in actionConfigs && actionConfigs[name.value])
              ==> actionsMap == old(actionsMap)
      ensures hostRequests == old(hostRequests) + [BaseOptionChanged(name), Invalidate]
    {
      if name.Some? && name.value != "" && name.value in actionConfigs && actionConfigs[name.value] {
        AddAction(name.value, None);
      }
      hostRequests := hostRequests + [BaseOptionChanged(name), Invalidate];
    }

    /** `registerKeyHandler`: the key now maps to the handler (the last
        registration wins), every other key keeps its handler, and a key-down
        naming the key finds this handler. */
    method RegisterKeyHandler(key: string, handler: Handler)
      modifies this`supportedKeys
      ensures supportedKeys.Keys == old(supportedKeys).Keys + {key}
      ensures supportedKeys[key] == handler
      ensures forall k :: k in old(supportedKeys) && k != key ==> supportedKeys[k] == old(supportedKeys)[k]
      ensures forall which :: KeyDispatch.LookupKey(supportedKeys, key, which) == Some(handler)
    {
      supportedKeys := supportedKeys[key := handler];
    }

    /** The function `_wrapKeyDownHandler(onKeyDown)` returns, applied to one
        key-down: it follows the dispatch rule over the registered keys and
        sets `cancel` on the original event exactly when the rule cancels. */
    method HandleKeyDown(onKeyDown: Option<Handler>, originalEvent: DomEvent, keyName: string,
                         which: string, accepts: Handler -> bool)
      returns (d: KeyDispatch.Dispatch)
      modifies originalEvent
      ensures d == KeyDispatch.KeyDown(supportedKeys, onKeyDown, keyName, which, accepts)
      ensures originalEvent.cancel == (d.cancel || old(originalEvent.cancel))
    {
      var keys := supportedKeys;
      var func := KeyDispatch.LookupKey(keys, keyName, which);
      if func.Some? {
        var result := accepts(func.value);
        if !result {
          originalEvent.cancel := true;
          d := KeyDispatch.Dispatch([func.value], true, KeyDispatch.OriginalEvent);
          return;
        }
      }
      var registered := if func.Some? then [func.value] else [];
      if onKeyDown.Some? {
        d := KeyDispatch.Dispatch(registered + [onKeyDown.value], false, KeyDispatch.PropResult(onKeyDown.value));
      } else {
        d := KeyDispatch.Dispatch(registered, false, KeyDispatch.NoResult);
      }
    }

    /** `setAria`: always fails, whatever the state. */
    method SetAria() returns (r: Outcome<Error>)
      ensures r.Fail? && r.error.DeprecatedApi?
    {
      r := Fail(DeprecatedApi("\"setAria\" method is deprecated, use \"aria\" property instead"));
    }
  }
}
