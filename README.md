# PreactWrapper bookkeeping, modelled in Dafny

`PreactWrapper` (`js/renovation/preact_wrapper/component.ts`) is the adapter
that lets a renovated view component, rendered by Inferno, live inside the
jQuery-style `DOMComponent` widget framework. Besides calling the renderer it
keeps its own books, and those books are what this project models and proves
things about:

- **option defaulting** (`setDefaultOptionValue`, `_patchOptionValues`): an
  option that is present but `undefined` receives, in this order, `null` if
  its name allows null, the view's `defaultProps` value, or a two-way
  binding's default; element-typed options are unwrapped to DOM nodes;
- **the `elementAttr` getter**: a snapshot of the host element's attributes
  and its `dx-` classes, taken on the first access and reused afterwards,
  with the style and the class recomputed on every access;
- **`getProps`**: the merge of the patched options, the host attributes, the
  option's `elementAttr`, a de-duplicated `className` and the actions;
- **first-mount position** (`getContainerIndex`, `insertContainer`): the
  container leaves its parent for the staging fragment and comes back at
  the index it had;
- **the mount state** (`_preactReplaced`, `_shouldRefresh` in
  `_renderPreact` and `_initMarkup`): the first render hydrates, every later
  one renders in place, and a requested refresh renders twice once;
- **the registries** (`_addAction`, `_optionChanged`, `registerKeyHandler`)
  and the **key-down rule** of `_wrapKeyDownHandler`, where a registered key
  handler runs first and can cancel the event before the `onKeyDown` prop.

Layout, one module per file:

| file | module | contents |
|---|---|---|
| `values.dfy` | `Values` | JavaScript values, handlers, props, errors |
| `class_tokens.dfy` | `ClassTokens` | `split(' ')`, `join(' ')`, `trim()`, the `dx-` filter, the `className` de-duplication |
| `option_defaults.dfy` | `OptionDefaults` | `setDefaultOptionValue`, the three default sources, element unwrapping |
| `container_position.dfy` | `ContainerPosition` | `getContainerIndex`, `insertContainer` over a parent's children |
| `key_dispatch.dfy` | `KeyDispatch` | the key lookup and the key-down dispatch rule |
| `preact_wrapper.dfy` | `PreactWrapperModel` | class `PreactWrapper` with its fields, the getter, `getProps`, mounting, registries |

The class-string chains and the merge are pure functions; the parts of the
source that update fields or loop (`_patchOptionValues`, the getter,
`_renderPreact`, `_initMarkup`, the registries, `originalEvent.cancel`) are
methods of the `PreactWrapper` class, each proved against those functions.
The renderer is a log: each render appends `Hydrate(props)` or
`Rerender(props)` to `renders`, so the number and the order of the calls can
be stated.

When `getProps` merges the class strings, the host element's classes come
first (component.ts:227-230): host classes `b c` with option classes `a b`
give `b c a`, which `ClassTokens.ClassNameExample` proves.

## Model

| member | source | states |
|---|---|---|
| `OptionDefaults.SetDefault` | js/renovation/preact_wrapper/component.ts:16-20 | the option is written only when the key is present and holds `undefined`; absent keys, `null` and defined values and every other key are unchanged; no key is added |
| `OptionDefaults.FillFrom` | js/renovation/preact_wrapper/component.ts:192-194 | applying a default source entry by entry adds and removes no key |
| `OptionDefaults.FillFromAt` | js/renovation/preact_wrapper/component.ts:192-205 | after a source is applied, a present option keeps a defined value and otherwise holds the earliest defined default for its name |
| `OptionDefaults.FirstDefaultEarliest` | js/renovation/preact_wrapper/component.ts:203-205 | the default an option receives is exactly the earliest defined entry for its name, `undefined` when there is none |
| `OptionDefaults.FirstDefaultAppend` | js/renovation/preact_wrapper/component.ts:192-205 | of two sources applied one after the other, the earlier one wins wherever it has a default |
| `OptionDefaults.NullDefault` | js/renovation/preact_wrapper/component.ts:192-194 | the allow-null source gives `null` exactly to the allow-null names |
| `OptionDefaults.FillFromMap` | js/renovation/preact_wrapper/component.ts:196-201 | the `defaultProps` pass over any set of visited names adds and removes no key |
| `OptionDefaults.DefaultPrecedence` | js/renovation/preact_wrapper/component.ts:188-205 | a defined option is kept; an undefined one becomes `null` if allowed, else the defined `defaultProps` value, else the earliest two-way default; keys are unchanged |
| `OptionDefaults.PatchElements` | js/renovation/preact_wrapper/component.ts:207-211 | element unwrapping adds and removes no key |
| `OptionDefaults.PatchElementsAt` | js/renovation/preact_wrapper/component.ts:207-211 | an option is unwrapped once per occurrence of its name in `elements` and never otherwise |
| `PreactWrapperModel.PreactWrapper.PatchOptionValues` | js/renovation/preact_wrapper/component.ts:188-214 | the patched options are the three default sources in order followed by the element unwrapping |
| `PreactWrapperModel.PreactWrapper.FillAllowNull` | js/renovation/preact_wrapper/component.ts:192-194 | the loop over allow-null names computes the allow-null source applied in order |
| `PreactWrapperModel.PreactWrapper.FillDefaultProps` | js/renovation/preact_wrapper/component.ts:196-201 | the loop over the `defaultProps` keys fills every present undefined option that has a default prop, in any visiting order |
| `PreactWrapperModel.PreactWrapper.FillTwoWay` | js/renovation/preact_wrapper/component.ts:203-205 | the loop over two-way bindings computes that source applied in order |
| `PreactWrapperModel.PreactWrapper.PatchElementOptions` | js/renovation/preact_wrapper/component.ts:207-211 | the loop over `elements` unwraps only names already among the options |
| `ClassTokens.Split` | js/renovation/preact_wrapper/component.ts:174-176 | `split(' ')` yields at least one piece and no piece holds a space |
| `ClassTokens.Trim` | js/renovation/preact_wrapper/component.ts:182-183 | `trim()` yields a string no longer than its input that neither starts nor ends with white space, leaves an already trimmed string alone and turns the empty string into the empty string |
| `ClassTokens.TrimStartFacts` | js/renovation/preact_wrapper/component.ts:182-183 | removing leading white space keeps a suffix of the input, everything cut is white space, and what remains does not start with white space |
| `ClassTokens.TrimEndFacts` | js/renovation/preact_wrapper/component.ts:182-183 | removing trailing white space keeps a prefix of the input, everything cut is white space, and what remains does not end with white space |
| `ClassTokens.TrimCutsBlankRuns` | js/renovation/preact_wrapper/component.ts:182-183 | every string is its `trim()` with a run of white space before it and one after it |
| `ClassTokens.JoinSplit` | js/renovation/preact_wrapper/component.ts:174-177 | joining the pieces of a split gives the string back |
| `ClassTokens.SplitJoin` | js/renovation/preact_wrapper/component.ts:178-182 | splitting the join of space-free pieces gives the pieces back |
| `ClassTokens.Filter` | js/renovation/preact_wrapper/component.ts:176 | a filter keeps exactly the tokens satisfying the test and adds none |
| `ClassTokens.FilterAppend` | js/renovation/preact_wrapper/component.ts:176 | a filter keeps order: filtering a concatenation concatenates the filtered parts, and a single token is kept exactly when it passes |
| `ClassTokens.FilterKeepsAll` | js/renovation/preact_wrapper/component.ts:176 | a filter whose test every token passes returns its input |
| `ClassTokens.DxPartition` | js/renovation/preact_wrapper/component.ts:174-181 | the `dx-` filter and its complement split a class attribute's tokens into two parts whose multisets add up to the whole |
| `ClassTokens.StoredTokens` | js/renovation/preact_wrapper/component.ts:172-177 | the stored class string splits back into exactly the `dx-` tokens of the attribute it was computed from |
| `ClassTokens.ClassListTokens` | js/renovation/preact_wrapper/component.ts:178-182 | the getter's class list is the current attribute's non-`dx-` tokens followed by the stored tokens |
| `ClassTokens.ElementClassKeepsDxTokens` | js/renovation/preact_wrapper/component.ts:171-183 | the `dx-` tokens stored on the first access follow the current own tokens on every later access, even when the attribute has lost them |
| `ClassTokens.TokensLeadingSpace` | js/renovation/preact_wrapper/component.ts:174-182 | a leading space names no class |
| `ClassTokens.TokensTrailingSpace` | js/renovation/preact_wrapper/component.ts:174-182 | a trailing space names no class |
| `ClassTokens.PaddedTokens` | js/renovation/preact_wrapper/component.ts:174-182 | spaces on either side of a class string name no class |
| `ClassTokens.TrimTokens` | js/renovation/preact_wrapper/component.ts:182-183 | when spaces are the only white space, `trim()` names the same classes as the untrimmed list |
| `ClassTokens.ElementClassTokens` | js/renovation/preact_wrapper/component.ts:171-183 | when spaces are the only white space, the getter's class names the current attribute's non-empty own classes followed by the `dx-` classes of the first access, in order |
| `ClassTokens.IndexOf` | js/renovation/preact_wrapper/component.ts:231 | `indexOf` is the first position of the token, and -1 exactly when it is absent |
| `ClassTokens.KeepFirstProperties` | js/renovation/preact_wrapper/component.ts:231 | the filter over a prefix keeps exactly its non-empty tokens, at their first occurrence, in order |
| `ClassTokens.DedupProperties` | js/renovation/preact_wrapper/component.ts:231 | the filter keeps each non-empty token exactly once, in first-occurrence order |
| `ClassTokens.ClassNameTokens` | js/renovation/preact_wrapper/component.ts:227-233 | the `className` tokens split back from their join, are exactly the non-empty tokens of either input, are distinct, and the host's come before those only the options contribute |
| `ClassTokens.HostTokensFirst` | js/renovation/preact_wrapper/component.ts:227-231 | in the de-duplicated token list, every host token comes before every token the host does not list |
| `ClassTokens.ClassNameIsJoin` | js/renovation/preact_wrapper/component.ts:227-233 | when the inputs hold no white space besides the separators, the trim changes nothing and `className` splits into its de-duplicated tokens |
| `ClassTokens.TokenChars` | js/renovation/preact_wrapper/component.ts:227-231 | every `className` token is non-empty and holds no white space when the inputs hold none |
| `ClassTokens.ClassNameExample` | js/renovation/preact_wrapper/component.ts:227-233 | host classes `b c` and option classes `a b` give `b c a` |
| `PreactWrapperModel.Refreshed` | js/renovation/preact_wrapper/component.ts:163-183 | the getter's result keeps the snapshot's keys, adds `style` and `class`, holds the current style and the computed class, and leaves every other attribute alone |
| `PreactWrapperModel.RefreshedTwice` | js/renovation/preact_wrapper/component.ts:163-185 | refreshing the object the getter returned changes nothing |
| `PreactWrapperModel.PreactWrapper.GetElementAttr` | js/renovation/preact_wrapper/component.ts:151-186 | the attributes are snapshot and the `dx-` classes stored on the first access only; the result holds the current style and class; a second access in the same state returns the same object; the options, actions and mount state are untouched |
| `PreactWrapperModel.MergeProps` | js/renovation/preact_wrapper/component.ts:223-236 | the props hold every source's keys; actions override everything, then `className` and `class: ''`, then the option's `elementAttr`, then the host attributes, then the options |
| `PreactWrapperModel.PropsFor` | js/renovation/preact_wrapper/component.ts:223-236 | `getProps` throws exactly when the patched `elementAttr` option is missing, `undefined` or `null`, and otherwise yields the merge with the computed `className` |
| `PreactWrapperModel.PreactWrapper.GetProps` | js/renovation/preact_wrapper/component.ts:216-237 | the result is the props of the state before the call; the getter's caches are filled and calling again yields the same result |
| `PreactWrapperModel.RefreshProps` | js/renovation/preact_wrapper/component.ts:97-104 | the refresh pass nulls `width`, `height` and `children`, blanks `style` and `className`, and keeps every other prop |
| `PreactWrapperModel.Passes` | js/renovation/preact_wrapper/component.ts:94-106 | a requested refresh adds a neutralised pass before the real one, which always comes last |
| `PreactWrapperModel.RenderCalls` | js/renovation/preact_wrapper/component.ts:109-137 | one renderer call per pass, in order; only a first pass while unmounted hydrates |
| `PreactWrapperModel.PreactWrapper.RenderPreact` | js/renovation/preact_wrapper/component.ts:109-137 | the unmounted branch hydrates once and mounts for good, putting an attached container back where it was; a mounted wrapper re-renders in place |
| `PreactWrapperModel.PreactWrapper.RenderPasses` | js/renovation/preact_wrapper/component.ts:94-106 | a requested refresh is cleared and renders the neutralised props first; the props are rendered last; the wrapper ends mounted, an unmounted container without a parent stays in the staging fragment, and any other keeps its place |
| `PreactWrapperModel.PreactWrapper.InitMarkup` | js/renovation/preact_wrapper/component.ts:92-107 | a throwing `getProps` renders nothing and changes no mount state; otherwise the wrapper ends mounted with no pending refresh, the log grows by exactly the passes, and a container without a parent ends in the staging fragment; in both cases the getter's caches hold the snapshot of the state before the call |
| `PreactWrapperModel.PreactWrapper.RenderResult` | js/renovation/preact_wrapper/component.ts:96-106 | an error from `getProps` is passed on with nothing rendered; props are rendered in the refresh passes, with the same end state as `RenderPasses` |
| `PreactWrapperModel.PreactWrapper.Repaint` | js/renovation/preact_wrapper/component.ts:371-374 | a refresh is requested and the framework is asked to refresh |
| `ContainerPosition.ContainerIndex` | js/renovation/preact_wrapper/component.ts:22-24 | the index is the container's first position among the children, or -1 exactly when it is not a child |
| `ContainerPosition.Detach` | js/renovation/preact_wrapper/component.ts:119 | moving the container out removes its occurrence at its index and keeps every other child in order |
| `ContainerPosition.InsertContainer` | js/renovation/preact_wrapper/component.ts:26-33 | an index at or past the child count appends; otherwise the container goes before the child at the index, a negative one counted from the end |
| `ContainerPosition.DetachThenInsert` | js/renovation/preact_wrapper/component.ts:113-128 | detaching the container and inserting it at its recorded index restores the element children exactly |
| `PreactWrapperModel.PreactWrapper.constructor` | js/renovation/preact_wrapper/component.ts:243-254 | the registries start empty and every configured event gets its derived action |
| `PreactWrapperModel.PreactWrapper.AddAction` | js/renovation/preact_wrapper/component.ts:256-273 | the event maps to the given handler, or else to the one derived from its configuration; no other event changes |
| `PreactWrapperModel.PreactWrapper.OptionChanged` | js/renovation/preact_wrapper/component.ts:275-283 | an option naming an event with a truthy configuration re-derives its action, no other option touches the actions, and the base class and an invalidation follow |
| `PreactWrapperModel.PreactWrapper.RegisterKeyHandler` | js/renovation/preact_wrapper/component.ts:376-379 | the key maps to the handler (last registration wins), other keys keep theirs, and a key-down naming the key finds it |
| `KeyDispatch.LookupKey` | js/renovation/preact_wrapper/component.ts:336 | the handler for the key name wins over the one for the key code; nothing is found exactly when neither is registered |
| `KeyDispatch.KeyDown` | js/renovation/preact_wrapper/component.ts:333-351 | the event is cancelled exactly when a found handler returns falsy, and then only that handler runs and the event is returned; otherwise the found handler then the prop run and the prop's result is returned |
| `KeyDispatch.RegisteredHandlerFirst` | js/renovation/preact_wrapper/component.ts:338-347 | after registering a key, its handler runs first whatever the key code, and cancels exactly when it returns falsy, skipping the prop |
| `PreactWrapperModel.PreactWrapper.HandleKeyDown` | js/renovation/preact_wrapper/component.ts:332-352 | the wrapped handler follows the dispatch rule and sets `originalEvent.cancel` exactly when the rule cancels |
| `PreactWrapperModel.PreactWrapper.SetAria` | js/renovation/preact_wrapper/component.ts:383-387 | the call always fails with the deprecation error |

## Left out

- The Inferno renderer: `hydrate`, `render`, `createElement`, `InfernoEffectHost.lock`/`callEffects` and the `$V` link copied after hydration are foreign code; a render is a log entry carrying its props.
- `_dispose` only hands the renderer's root over to the parent and unmounts it; it keeps no books of its own.
- DOM and jQuery reads: the host element is a value (`HostElement`) holding its specified attributes, inline style and class attribute; the parent's element children are a sequence of node identities.
- `ContainerPosition.DetachThenInsert`: text nodes of the parent are not modelled, so the restored order is the order among element children only. `getContainerIndex` and `insertContainer` count element children, so the source can move the container past a text node: with parent nodes `[A, C, "t"]`, container `C` and text node `"t"`, the recorded index is 1, one element child remains after the move out, and `append` gives `[A, "t", C]`.
- `_patchElementParam`'s jQuery wrapping, `.get(0)` and `nodeType` test are one caller-supplied function from a value to the node it denotes, if any.
- `_extractDefaultSlot` and `_createTemplateComponent` call the template manager; the default slot is a parameter of `getProps`.
- `_getDefaultOptions` depends on the deep `extend` and the base widget's defaults, which are not part of this model.
- `_createActionByOption` and the `getPublicElement` wrapping inside `_addAction` are base-class and library calls; a derived action is the handler `FromOption(event)`.
- The base class's `_optionChanged`, `_invalidate` and `_refresh` are recorded as requests in `hostRequests`, not executed.
- `viewRef`, `_toPublicElement` and `_render` have no logic of their own.
- `_supportedKeys` is a stored map rather than a function returning one; subclasses that override it are not modelled.
- `KeyDispatch.LookupKey` takes the key name and key code already converted to property names, and every registered handler is a function, so `keys[keyName] || keys[which]` becomes a membership test; a falsy value registered as a handler is not modelled.
- `PreactWrapperModel.AttrFields`: an `elementAttr` option that is a string or another non-object is treated as having no own properties, although spreading a string would copy its characters.
- `PreactWrapperModel.ClassOf`: a non-string `class` attribute is treated as no class.
- `ClassTokens.IsWhiteSpace` lists the white-space and line-terminator characters of ECMAScript `trim`; no Unicode table is consulted beyond that list.
- `js/data/custom_store.d.ts` declares types only and `js/ui/scheduler/workspaces/ui.scheduler.timeline_hour.js` returns a constant class name; neither has behaviour to model.
