/** `OgIBase`: the common base of Field3D's Ogawa readers. It holds a shared,
    possibly-null reference to one input group and a cached name string that
    derived readers fill in. */
module OgBase {

  import opened Optional
  import opened OgData

  /** An `IGroupPtr`: None stands for the null pointer. */
  type GroupPtr = Option<Group>

  datatype OgIBase = OgIBase(group: GroupPtr, cachedName: string) {

    /** `isValid()`: whether the group reference is non-null. */
    predicate IsValid() {
      group.Some?
    }

    /** `name()`: the cached name. */
    function Name(): string {
      cachedName
    }
  }

  /** The default constructor: no group and an empty name. */
  function Default(): (h: OgIBase)
    ensures !h.IsValid()
    ensures h.Name() == ""
  {
    OgIBase(None, "")
  }

  /** The constructor from a group reference. It stores the reference and leaves
      the name empty; the handle is valid exactly when the reference is
      non-null. */
  function FromGroup(p: GroupPtr): (h: OgIBase)
    ensures h.IsValid() <==> p.Some?
    ensures h.group == p
    ensures h.Name() == ""
  {
    OgIBase(p, "")
  }

  /** Sanity check of the two constructors against each other: a handle
      constructed from a non-null group is valid, refers to that group and
      differs from the default handle; one constructed from null is the
      default handle. */
  lemma BindingIsObservable(g: Group)
    ensures FromGroup(Some(g)).IsValid()
    ensures FromGroup(Some(g)).group.value == g
    ensures FromGroup(Some(g)) != Default()
    ensures FromGroup(None) == Default()
  {
  }
}
