/**
 * The component-class factory of ReactDOM and the table it builds from the
 * tag registry.
 *
 * `ReactDOMComponent`, `ReactDescriptor.createFactory` and
 * `ReactDescriptorValidator.createFactory` are collaborators whose code is not
 * part of this model: each is a constructor of a datatype below that records
 * only what it was applied to. The build flag `__DEV__` is the parameter
 * `dev`.
 */
module DOMFactory {
  import opened TagRegistry

  /** `new ReactDOMComponent(tag, omitClose)`: the prototype of every instance. */
  datatype DOMComponent = DOMComponent(tag: string, omitClose: bool)

  /**
   * A generated `Constructor`: its prototype and its `displayName`. Calling
   * it on a descriptor constructs an instance from that descriptor.
   */
  datatype ComponentClass = ComponentClass(prototype: DOMComponent, displayName: string)

  /**
   * A convenience constructor: `ReactDescriptor.createFactory` applied to a
   * component class, possibly wrapped by `ReactDescriptorValidator.createFactory`.
   */
  datatype Factory =
    | Convenience(componentClass: ComponentClass)
    | Validating(inner: Factory)

  /** A descriptor, owned by a collaborator; only its identity matters here. */
  datatype Descriptor = Descriptor(id: nat)

  /** A component instance: the prototype it inherits and the descriptor it was constructed from. */
  datatype Instance = Instance(component: DOMComponent, descriptor: Descriptor)

  /**
   * The factory with every validating wrapper removed: the convenience
   * constructor a development build wraps, which constructs the same class.
   */
  function Unvalidated(f: Factory): (g: Factory)
    ensures g.Convenience?
    ensures f.Convenience? ==> g == f
    ensures ClassOf(g) == ClassOf(f)
  {
    match f
    case Convenience(_) => f
    case Validating(inner) => Unvalidated(inner)
  }

  /** The component class a factory constructs, looking through validating wrappers. */
  function ClassOf(f: Factory): (c: ComponentClass)
  {
    match f
    case Convenience(c) => c
    case Validating(inner) => ClassOf(inner)
  }

  /**
   * Invoking a factory on a descriptor: the constructor hands the descriptor,
   * unchanged, to the shared construction routine of its prototype. A
   * validating wrapper delegates to the factory it wraps; its checks belong
   * to the validator and are not part of this model.
   */
  function Instantiate(f: Factory, d: Descriptor): (i: Instance)
    ensures i.component == ClassOf(f).prototype
    ensures i.descriptor == d
  {
    match f
    case Convenience(c) => Instance(c.prototype, d)
    case Validating(inner) => Instantiate(inner, d)
  }

  /**
   * `createDOMComponentClass(omitClose, tag)`: a new convenience constructor
   * bound to exactly this tag and flag, named after the tag, and wrapped by
   * the validator exactly in a development build.
   */
  function CreateDOMComponentClass(omitClose: bool, tag: string, dev: bool): (f: Factory)
    ensures ClassOf(f).prototype == DOMComponent(tag, omitClose)
    ensures ClassOf(f).displayName == tag
    ensures f.Validating? <==> dev
    ensures dev ==> f.inner.Convenience?
  {
    var cls := ComponentClass(DOMComponent(tag, omitClose), tag);
    var convenience := Convenience(cls);
    if dev then Validating(convenience) else convenience
  }

  /**
   * The development factory is the validator wrapping of the production
   * factory: both wrap the same constructor.
   */
  lemma DevWrapsProduction(omitClose: bool, tag: string)
    ensures CreateDOMComponentClass(omitClose, tag, true).inner == CreateDOMComponentClass(omitClose, tag, false)
    ensures Unvalidated(CreateDOMComponentClass(omitClose, tag, true)) == CreateDOMComponentClass(omitClose, tag, false)
  {
  }

  /**
   * Development and production factories for one tag construct the same
   * instance from the same descriptor; only the validation differs.
   */
  lemma DevProductionParity(omitClose: bool, tag: string, d: Descriptor)
    ensures Instantiate(CreateDOMComponentClass(omitClose, tag, true), d)
         == Instantiate(CreateDOMComponentClass(omitClose, tag, false), d)
  {
  }

  /** Distinct tags, flags or build modes give distinct factories. */
  lemma CreateInjective(o1: bool, t1: string, d1: bool, o2: bool, t2: string, d2: bool)
    requires CreateDOMComponentClass(o1, t1, d1) == CreateDOMComponentClass(o2, t2, d2)
    ensures o1 == o2 && t1 == t2 && d1 == d2
  {
  }

  /**
   * `mapObject(registry, createDOMComponentClass)`: one factory per
   * registered tag, each built from its own key and that key's flag.
   */
  function Build(registry: map<string, bool>, dev: bool): (table: map<string, Factory>)
    ensures table.Keys == registry.Keys
    ensures forall tag :: tag in table ==>
      && ClassOf(table[tag]).prototype == DOMComponent(tag, registry[tag])
      && ClassOf(table[tag]).displayName == tag
      && (table[tag].Validating? <==> dev)
      && (dev ==> table[tag].inner.Convenience?)
  {
    map tag | tag in registry :: CreateDOMComponentClass(registry[tag], tag, dev)
  }

  /**
   * In the table built from the registry, a tag's factory omits the close
   * tag exactly when the tag is one of the sixteen void tags.
   */
  lemma BuiltVoidFlags(dev: bool, tag: string)
    requires tag in Build(Registry(), dev)
    ensures ClassOf(Build(Registry(), dev)[tag]).prototype.omitClose <==> tag in VoidTags
  {
    VoidFlagsExact(tag);
  }

  /**
   * A registry of one container tag and one void tag (`div` and `br`, say)
   * gives a table with exactly those two keys, and only the void tag's
   * factory omits its close tag.
   */
  lemma TwoTagBuild(container: string, void: string, dev: bool)
    requires container != void
    ensures Build(map[container := false, void := true], dev).Keys == {container, void}
    ensures ClassOf(Build(map[container := false, void := true], dev)[void]).prototype.omitClose
    ensures !ClassOf(Build(map[container := false, void := true], dev)[container]).prototype.omitClose
  {
  }
}
