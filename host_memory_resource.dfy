/**
 * The equality and capability protocol a host memory resource inherits
 * (include/rmm/mr/host/host_memory_resource.hpp): two resources are equal
 * when they are the same object, inequality is derived from equality, and
 * the resource type declares that it hands out host-accessible memory.
 */
module HostMemoryResources {

  /** The memory properties a resource type can declare (cuda::mr properties). */
  datatype Property = HostAccessible | DeviceAccessible

  /**
   * A resource of a derived type that keeps the protocol's default equality
   * and adds no property declaration of its own. It carries no state of its
   * own: everything below depends only on the object's identity or on its type.
   */
  class HostMemoryResource {

    constructor ()
    {
    }

    /** The defaulted copy constructor: a new object, so not equal to the original. */
    constructor Copy(other: HostMemoryResource)
      ensures !Equal(this, other) && NotEqual(Equal, this, other)
    {
    }

    /**
     * get_property: the properties the mixin declares, host access and
     * nothing else. It is a fact about the type, so no object is consulted.
     */
    static function HasProperty(p: Property): (declared: bool)
      ensures declared <==> p == HostAccessible
    {
      p.HostAccessible?
    }
  }

  /**
   * Default equality: the same object. This is a conservative reading of
   * "memory from one can be released through the other": distinct objects
   * are reported unequal even if they could in fact share allocations.
   */
  function Equal(left: HostMemoryResource, right: HostMemoryResource): (r: bool)
    ensures r <==> left == right
  {
    left == right
  }

  /**
   * The synthesized inequality, for any right-hand type `T` that the derived
   * type can be compared with through `equal`: the negation of that equality.
   * The equality may be partial and may read the state of either operand.
   */
  function NotEqual<T>(equal: (HostMemoryResource, T) ~> bool, left: HostMemoryResource, right: T): (r: bool)
    requires equal.requires(left, right)
    reads equal.reads(left, right)
    ensures r != equal(left, right)
  {
    !equal(left, right)
  }

  /** Default equality is reflexive, symmetric and transitive; inequality is irreflexive and symmetric. */
  lemma EqualityLaws(a: HostMemoryResource, b: HostMemoryResource, c: HostMemoryResource)
    ensures Equal(a, a) && !NotEqual(Equal, a, a)
    ensures Equal(a, b) == Equal(b, a)
    ensures NotEqual(Equal, a, b) == NotEqual(Equal, b, a)
    ensures Equal(a, b) && Equal(b, c) ==> Equal(a, c)
  {
  }

  /** Two distinct objects are never equal under the default, whatever their (empty) state. */
  lemma DistinctObjectsAreUnequal(a: HostMemoryResource, b: HostMemoryResource)
    requires a != b
    ensures !Equal(a, b) && NotEqual(Equal, a, b)
  {
  }
}
