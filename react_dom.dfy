/**
 * The live `ReactDOM` object: the table of tag factories built once when the
 * module loads, the `injection` facility stored beside them, and
 * `injectComponentClasses`, which later merges extra entries into the table
 * in place.
 */
module ReactDOM {
  import opened TagRegistry
  import opened DOMFactory

  datatype Option<T> = None | Some(value: T)

  /** A value held by the live table. */
  datatype Entry =
    | Tag(factory: Factory)   // a tag factory
    | Injection               // the `injection` object
    | Foreign(id: nat)        // any other value supplied through injection, opaque here

  /**
   * `mergeInto(table, extra)`: every key of `extra` is written with the value
   * `extra` gives it, whether or not the table held it already; every other
   * key keeps its value, and no key is removed. Nothing is validated.
   */
  function Merge(table: map<string, Entry>, extra: map<string, Entry>): (merged: map<string, Entry>)
    ensures merged.Keys == table.Keys + extra.Keys
    ensures forall key :: key in extra ==> merged[key] == extra[key]
    ensures forall key :: key in table && key !in extra ==> merged[key] == table[key]
  {
    table + extra
  }

  /** Two injections in a row write what one injection of both would, the later winning. */
  lemma MergeTwice(table: map<string, Entry>, first: map<string, Entry>, second: map<string, Entry>)
    ensures Merge(Merge(table, first), second) == Merge(table, Merge(first, second))
  {
  }

  /** Injecting the same entries again changes nothing. */
  lemma MergeIdempotent(table: map<string, Entry>, extra: map<string, Entry>)
    ensures Merge(Merge(table, extra), extra) == Merge(table, extra)
  {
  }

  /** Injections of disjoint keys may be made in either order. */
  lemma MergeDisjointCommutes(table: map<string, Entry>, first: map<string, Entry>, second: map<string, Entry>)
    requires first.Keys !! second.Keys
    ensures Merge(Merge(table, first), second) == Merge(Merge(table, second), first)
  {
  }

  /**
   * Injections that write one key with different values do not commute:
   * the last writer wins and there is no conflict check.
   */
  lemma LastWriterWins(table: map<string, Entry>, key: string, a: Entry, b: Entry)
    requires a != b
    ensures Merge(Merge(table, map[key := a]), map[key := b])[key] == b
    ensures Merge(Merge(table, map[key := b]), map[key := a])[key] == a
    ensures Merge(Merge(table, map[key := a]), map[key := b]) != Merge(Merge(table, map[key := b]), map[key := a])
  {
  }

  /**
   * The table module load leaves: `mapObject(registry, createDOMComponentClass)`
   * with the `injection` object then stored under its own key.
   */
  function Loaded(registry: map<string, bool>, dev: bool): (table: map<string, Entry>)
    ensures table.Keys == registry.Keys + {InjectionKey}
    ensures table[InjectionKey] == Injection
    ensures forall tag :: tag in registry && tag != InjectionKey ==>
      && table[tag].Tag?
      && ClassOf(table[tag].factory).prototype == DOMComponent(tag, registry[tag])
      && ClassOf(table[tag].factory).displayName == tag
      && (table[tag].factory.Validating? <==> dev)
      && (dev ==> table[tag].factory.inner.Convenience?)
  {
    var built := Build(registry, dev);
    (map tag | tag in built :: Tag(built[tag]))[InjectionKey := Injection]
  }

  /**
   * Loaded from the registry literal, the table holds every tag and the
   * injection key; no tag is lost to the injection key, and each tag's
   * factory omits the close tag exactly when the tag is void.
   */
  lemma LoadedFromRegistry(dev: bool, tag: string)
    requires tag in Registry()
    ensures Loaded(Registry(), dev).Keys == Registry().Keys + {InjectionKey}
    ensures Loaded(Registry(), dev)[tag].Tag?
    ensures ClassOf(Loaded(Registry(), dev)[tag].factory).prototype == DOMComponent(tag, tag in VoidTags)
  {
    VoidFlagsExact(tag);
  }

  /** The `ReactDOM` object, loaded from `registry` under the build flag `dev`. */
  class FactoryTable {
    var table: map<string, Entry>
    const registry: map<string, bool>
    const dev: bool
    /** The keys written by some injection so far. */
    ghost var injected: set<string>

    /**
     * The table holds the registry's tags, the injection key and whatever was
     * injected; every key no injection has written still holds what module
     * load stored under it.
     */
    ghost predicate Valid()
      reads this
    {
      && table.Keys == registry.Keys + {InjectionKey} + injected
      && forall key :: key in table && key !in injected ==> table[key] == Loaded(registry, dev)[key]
    }

    /**
     * Module load: the registry mapped through `createDOMComponentClass`,
     * then the `injection` object stored beside the tags.
     */
    constructor (registry: map<string, bool>, dev: bool)
      ensures Valid() && this.registry == registry && this.dev == dev && injected == {}
      ensures table == Loaded(registry, dev)
    {
      table := Loaded(registry, dev);
      this.registry := registry;
      this.dev := dev;
      injected := {};
    }

    /**
     * `ReactDOM[tag]`. A registered tag that no injection has written gives
     * its own factory: bound to that tag and its flag, and named after it.
     */
    method Lookup(tag: string) returns (e: Option<Entry>)
      requires Valid()
      ensures e.Some? <==> tag in table
      ensures e.Some? ==> e.value == table[tag]
      ensures tag in registry && tag != InjectionKey && tag !in injected ==>
        && e.Some? && e.value.Tag?
        && ClassOf(e.value.factory).prototype == DOMComponent(tag, registry[tag])
        && ClassOf(e.value.factory).displayName == tag
        && (e.value.factory.Validating? <==> dev)
        && (dev ==> e.value.factory.inner.Convenience?)
    {
      if tag in table {
        e := Some(table[tag]);
      } else {
        e := None;
      }
    }

    /**
     * `injection.injectComponentClasses(extra)`: merges `extra` into the
     * table in place. Keys of `extra` take its values, new keys are added,
     * every other key is unchanged and no key is removed.
     */
    method Inject(extra: map<string, Entry>)
      requires Valid()
      modifies this
      ensures Valid()
      ensures table == Merge(old(table), extra)
      ensures injected == old(injected) + extra.Keys
    {
      table := Merge(table, extra);
      injected := injected + extra.Keys;
    }
  }
}
