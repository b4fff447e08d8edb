# ReactDOM tag-factory table, modelled in Dafny

This project models `ReactDOM`, the object an early version of React exposes as
`React.DOM`. It holds one convenience constructor per known HTML or SVG tag.
The object is built once, when its module loads, from a static registry that
maps every tag name to an `omitClose` flag. A tag with `omitClose` set is
rendered without its close tag. After the load,
`ReactDOM.injection.injectComponentClasses` can merge further entries into the
live object. React uses it to install special components for `form` and
`textarea`.

The project has three modules, one per part of `src/browser/ReactDOM.js`:

- `TagRegistry` (`tag_registry.dfy`) holds the registry literal, entry for entry
  and flag for flag. It also holds the set of the sixteen void tags and the
  proofs that the registry's flags agree with that set. The literal is written
  as seventeen consecutive runs, each named by its first and last tag
  (`RunAToAnimate`, …). The runs are gathered into four groups
  (`GroupAToFeColorMatrix`, …), and `Registry` is the union of the groups.
  Each run and each group has its own flags lemma, so no single proof has to
  look at all 203 entries at once.
- `DOMFactory` (`dom_factory.dfy`) models `createDOMComponentClass` and the
  `mapObject` build. The code of `ReactDOMComponent`,
  `ReactDescriptor.createFactory` and `ReactDescriptorValidator.createFactory`
  is not part of this model. Each of them is a datatype constructor that records
  only what it was applied to. The build flag `__DEV__` is a `dev: bool`
  parameter. `CreateDOMComponentClass` and `Build` are functions. They only
  return new values and cannot change the live table.
- `ReactDOM` (`react_dom.dfy`) models the live object. `FactoryTable` is a class
  whose `table: map<string, Entry>` field is what the module exports. Its
  constructor is the module load: the `mapObject` call, then the store of the
  `injection` object under its key. `Inject` is `injectComponentClasses`. It
  updates the field in place through `Merge`, the model of `mergeInto`. A ghost
  field records which keys an injection has written. `Valid()` states that every
  other key still holds what the load stored under it.

The constructor takes the registry as a parameter. The object the module
actually exports is `new FactoryTable(Registry(), dev)`. `LoadedFromRegistry`
states what that object holds.

Besides the tag factories, the exported object also holds the `injection`
facility, under the key `injection` (line 281). `InjectionKeyNotATag` proves
that storing it overwrites no tag.

## Model

| member | source | states |
|---|---|---|
| `TagRegistry.VoidFlagsExact` | src/browser/ReactDOM.js:69-272 | a registered tag's flag is true if and only if the tag is one of area, base, br, col, embed, hr, img, input, keygen, line, link, meta, param, source, track, wbr; every other tag's flag is false; no tag is `injection`. It is proved run by run: each run of the literal (`RunAToAnimate`, …) and each group of runs (`GroupAToFeColorMatrix`, …) has a flags lemma stating the same for its own tags |
| `TagRegistry.VoidTagsRegistered` | src/browser/ReactDOM.js:87-272 | each of the sixteen void tags is registered, with the flag true |
| `TagRegistry.MenuitemNotVoid` | src/browser/ReactDOM.js:203 | `menuitem` is registered with the flag false, although it has no close tag in HTML |
| `TagRegistry.FormNotVoid` | src/browser/ReactDOM.js:164 | `form` is registered with the flag false |
| `TagRegistry.TextareaNotVoid` | src/browser/ReactDOM.js:255 | `textarea` is registered with the flag false |
| `TagRegistry.InjectionKeyNotATag` | src/browser/ReactDOM.js:275-281 | the key `injection`, under which the facility is stored, is not a registered tag, so storing it overwrites no tag factory |
| `DOMFactory.Unvalidated` | src/browser/ReactDOM.js:52-60 | stripping the validator wrappers from a factory leaves a plain convenience constructor of the same component class, and leaves a plain one unchanged |
| `DOMFactory.Instantiate` | src/browser/ReactDOM.js:45-48 | invoking a factory on a descriptor gives an instance of the factory's prototype, constructed from that descriptor unchanged, with or without the validator |
| `DOMFactory.CreateDOMComponentClass` | src/browser/ReactDOM.js:44-61 | the factory's prototype is `ReactDOMComponent(tag, omitClose)` and its `displayName` is the tag; it is wrapped by the validator if and only if the build is a development build, and then wraps a plain convenience constructor |
| `DOMFactory.DevWrapsProduction` | src/browser/ReactDOM.js:52-60 | the development factory is the validator wrapping of the production factory for the same tag and flag, so both wrap the same constructor |
| `DOMFactory.DevProductionParity` | src/browser/ReactDOM.js:52-60 | development and production factories for one tag construct the same instance from the same descriptor |
| `DOMFactory.CreateInjective` | src/browser/ReactDOM.js:44-61 | two calls give equal factories only for the same tag, flag and build mode, so each factory is bound to exactly one pair |
| `DOMFactory.Build` | src/browser/ReactDOM.js:69-273 | the built table's keys are exactly the registry's keys, and each key's factory has the prototype `ReactDOMComponent(key, registry[key])`, the `displayName` key, and the validator exactly in a development build, wrapping a plain convenience constructor |
| `DOMFactory.BuiltVoidFlags` | src/browser/ReactDOM.js:69-273 | in the table built from the registry literal, a tag's factory omits the close tag if and only if the tag is one of the sixteen void tags |
| `DOMFactory.TwoTagBuild` | src/browser/ReactDOM.js:69-273 | a registry of one container tag and one void tag builds a table with exactly those two keys, in which only the void tag's factory omits its close tag |
| `ReactDOM.Merge` | src/browser/ReactDOM.js:276-278 | after `mergeInto`, the keys are the old keys plus the injected ones, every injected key holds the injected value whether or not it existed, and every other key keeps its value |
| `ReactDOM.MergeTwice` | src/browser/ReactDOM.js:276-278 | two injections in a row leave what a single injection of both would, with the later entries winning |
| `ReactDOM.MergeIdempotent` | src/browser/ReactDOM.js:276-278 | repeating an injection changes nothing |
| `ReactDOM.MergeDisjointCommutes` | src/browser/ReactDOM.js:276-278 | injections of disjoint key sets may be made in either order |
| `ReactDOM.LastWriterWins` | src/browser/ReactDOM.js:276-278 | two injections that write one key with different values leave the later value, so their order matters; nothing detects the conflict |
| `ReactDOM.Loaded` | src/browser/ReactDOM.js:69-281 | after module load the table holds the registry's tags plus `injection`; `injection` holds the facility, and every other registered tag holds a factory bound to that tag and its flag, wrapped once by the validator exactly in a development build |
| `ReactDOM.LoadedFromRegistry` | src/browser/ReactDOM.js:69-281 | loaded from the registry literal, every tag keeps its factory beside the `injection` key, and that factory omits the close tag if and only if the tag is void |
| `ReactDOM.FactoryTable.constructor` | src/browser/ReactDOM.js:69-281 | module load leaves the loaded table, with no key yet injected, and establishes the object invariant |
| `ReactDOM.FactoryTable.Lookup` | src/browser/ReactDOM.js:69-273 | `ReactDOM[tag]` gives the value of the object's own key `tag`, or nothing when the object has no such own key; a registered tag that no injection has written gives a factory bound to that tag and its flag, named after the tag, and wrapped once by the validator exactly in a development build |
| `ReactDOM.FactoryTable.Inject` | src/browser/ReactDOM.js:275-281 | `injectComponentClasses` merges the given entries into the live table in place (last writer wins, keys only added, others unchanged) and keeps the invariant that every key no injection wrote still holds its loaded value |

## Left out

- `gulpfile.js` is not part of this model. Its bundling, minifying, linting, testing and version-check tasks are build-time I/O over third-party tools.
- `ReactDOMComponent`, `ReactDescriptor` and `ReactDescriptorValidator` are not part of this model. The model records only the arguments they receive. The checks these collaborators make are left out, for example any check on the children of a tag whose close tag is omitted. The registry flag itself only says whether the close tag is omitted. `Instantiate` passes through a validating wrapper without checking.
- `mapObject` and `mergeInto` are not part of this model. They are modelled by their evident meaning: a map comprehension over the registry, and the map override `table + extra`.
- The prototype back-link `Constructor.prototype.constructor` (line 49) is left out.
- The `this.construct(descriptor)` delegation (lines 45-47) is reduced to `Instantiate`, which records that an instance is built from its prototype and the unchanged descriptor.
- `Factory` admits validator wrappers nested to any depth, although the source wraps a factory at most once (lines 55-57). `CreateDOMComponentClass`, `Build`, `Loaded` and `Lookup` each promise the exact shape: one wrapping of a plain convenience constructor in a development build, none otherwise. `Unvalidated`, `ClassOf` and `Instantiate` are defined for every shape.
- FactoryTable.Lookup: the table is modelled as a map of the object's own keys. Names the plain object inherits from `Object.prototype` (`constructor`, `toString`, `hasOwnProperty`, …) are not modelled, so `Lookup` gives nothing for them where `ReactDOM[tag]` gives an inherited function. The order of the object's keys is not modelled either.
- Object identity is left out. Each JavaScript call of `createDOMComponentClass` returns a new function object. The model's factories are values, so two calls with the same tag, flag and build mode give equal factories.
- Values injected from elsewhere (such as the `form` and `textarea` components) are opaque `Foreign` entries. They are not validated, as in the source.
- Overwriting the `injection` key is modelled as an ordinary injection. The facility stays usable in the source too, because `injectComponentClasses` refers to the module's own variable, not to that key. The model does not track who still holds the old value.
- The build flag is a parameter fixed at load time, as a bundle-time constant is.
- The 203 keys of the registry literal are distinct, and a repeated key would be a syntax error under the file's `"use strict"` (line 20). The model does not prove that the runs' key sets are disjoint. The flag lemmas hold whichever run supplies a key's value.
