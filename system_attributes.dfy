/**
  The system attributes of a v1 instance: who created and last modified it,
  and when. Every field may be null; a Date is kept as its timestamp.
 */
module SystemAttributes {
  import opened Wrappers

  /** java.util.Date, as the instant it denotes. */
  type Date = int

  /** The four fields of an AtlasSystemAttributes object, as one value. */
  datatype SystemAttributeValues = SystemAttributeValues(
    createdBy: Option<string>,
    modifiedBy: Option<string>,
    createdTime: Option<Date>,
    modifiedTime: Option<Date>)

  class AtlasSystemAttributes {
    var createdBy: Option<string>
    var modifiedBy: Option<string>
    var createdTime: Option<Date>
    var modifiedTime: Option<Date>

    /** All four fields null. */
    constructor ()
      ensures Fields() == SystemAttributeValues(None, None, None, None)
    {
      createdBy := None;
      modifiedBy := None;
      createdTime := None;
      modifiedTime := None;
    }

    /** A copy of `that`, or all fields null when `that` is null. */
    constructor Copy(that: AtlasSystemAttributes?)
      ensures that == null ==> Fields() == SystemAttributeValues(None, None, None, None)
      ensures that != null ==> Fields() == that.Fields() && Equals(that) && that.Equals(this)
    {
      if that != null {
        createdBy := that.createdBy;
        modifiedBy := that.modifiedBy;
        createdTime := that.createdTime;
        modifiedTime := that.modifiedTime;
      } else {
        createdBy := None;
        modifiedBy := None;
        createdTime := None;
        modifiedTime := None;
      }
    }

    /** Each argument stored in the field of the same name. */
    constructor Of(createdBy: Option<string>, modifiedBy: Option<string>, createdTime: Option<Date>, modifiedTime: Option<Date>)
      ensures GetCreatedBy() == createdBy && GetModifiedBy() == modifiedBy
      ensures GetCreatedTime() == createdTime && GetModifiedTime() == modifiedTime
    {
      this.createdBy := createdBy;
      this.modifiedBy := modifiedBy;
      this.createdTime := createdTime;
      this.modifiedTime := modifiedTime;
    }

    function Fields(): SystemAttributeValues
      reads this
    {
      SystemAttributeValues(createdBy, modifiedBy, createdTime, modifiedTime)
    }

    function GetCreatedBy(): Option<string>
      reads this
    {
      createdBy
    }

    function GetModifiedBy(): Option<string>
      reads this
    {
      modifiedBy
    }

    function GetCreatedTime(): Option<Date>
      reads this
    {
      createdTime
    }

    function GetModifiedTime(): Option<Date>
      reads this
    {
      modifiedTime
    }

    method SetCreatedBy(createdBy: Option<string>)
      modifies this
      ensures GetCreatedBy() == createdBy
      ensures Fields() == old(Fields()).(createdBy := createdBy)
    {
      this.createdBy := createdBy;
    }

    method SetModifiedBy(modifiedBy: Option<string>)
      modifies this
      ensures GetModifiedBy() == modifiedBy
      ensures Fields() == old(Fields()).(modifiedBy := modifiedBy)
    {
      this.modifiedBy := modifiedBy;
    }

    method SetCreatedTime(createdTime: Option<Date>)
      modifies this
      ensures GetCreatedTime() == createdTime
      ensures Fields() == old(Fields()).(createdTime := createdTime)
    {
      this.createdTime := createdTime;
    }

    method SetModifiedTime(modifiedTime: Option<Date>)
      modifies this
      ensures GetModifiedTime() == modifiedTime
      ensures Fields() == old(Fields()).(modifiedTime := modifiedTime)
    {
      this.modifiedTime := modifiedTime;
    }

    /** equals: the same object, or another AtlasSystemAttributes whose four
        fields are equal to these (null equal to null). */
    predicate Equals(o: object?)
      reads this, o
      ensures this == o ==> Equals(o)
      ensures o == null || !(o is AtlasSystemAttributes) ==> !Equals(o)
      ensures o is AtlasSystemAttributes ==> (Equals(o) <==> Fields() == (o as AtlasSystemAttributes).Fields())
    {
      if this == o then true
      else if o == null || !(o is AtlasSystemAttributes) then false
      else
        var obj := o as AtlasSystemAttributes;
        createdBy == obj.createdBy && modifiedBy == obj.modifiedBy
        && createdTime == obj.createdTime && modifiedTime == obj.modifiedTime
    }

    /** hashCode: Objects.hash of the four fields, `hash` standing for its
        arithmetic. */
    function HashCode(hash: SystemAttributeValues -> int): int
      reads this
    {
      hash(Fields())
    }
  }

  /** equals is symmetric. */
  lemma EqualsSymmetric(a: AtlasSystemAttributes, b: AtlasSystemAttributes)
    ensures a.Equals(b) <==> b.Equals(a)
  {
  }

  /** equals is transitive. */
  lemma EqualsTransitive(a: AtlasSystemAttributes, b: AtlasSystemAttributes, c: AtlasSystemAttributes)
    requires a.Equals(b) && b.Equals(c)
    ensures a.Equals(c)
  {
  }

  /** Equal objects have equal hash codes, whatever the hash arithmetic. */
  lemma EqualsHashCode(a: AtlasSystemAttributes, b: AtlasSystemAttributes, hash: SystemAttributeValues -> int)
    requires a.Equals(b)
    ensures a.HashCode(hash) == b.HashCode(hash)
  {
  }
}
