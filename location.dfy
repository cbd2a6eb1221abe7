/**
 * The `Location` domain object (its class is not part of this model; its
 * shape follows its uses): a uuid, a display name, a reference to the parent
 * location, a set of tag names and a map of attribute names to values. Cached
 * locations are shared objects, so a setter call is visible through every
 * index that holds the object.
 */
module Locations {
  import opened Wrappers

  class Location {
    var locationId: Option<string>
    var name: Option<string>
    var parentLocation: Location?
    var tags: set<string>
    var attributes: map<string, string>

    /** `new Location()`: nothing set. */
    constructor Empty()
      ensures locationId == None && name == None && parentLocation == null
      ensures tags == {} && attributes == map[]
    {
      locationId := None;
      name := None;
      parentLocation := null;
      tags := {};
      attributes := map[];
    }

    /** `new Location(uuid, name, parentLocation)`. */
    constructor (id: Option<string>, displayName: Option<string>, parent: Location?)
      ensures locationId == id && name == displayName && parentLocation == parent
      ensures tags == {} && attributes == map[]
    {
      locationId := id;
      name := displayName;
      parentLocation := parent;
      tags := {};
      attributes := map[];
    }

    /** `addTag`: the tag set gains one name. */
    method AddTag(tag: string)
      modifies this`tags
      ensures tags == old(tags) + {tag}
    {
      tags := tags + {tag};
    }

    /** `addAttribute`: a later value for the same attribute name replaces the earlier one. */
    method AddAttribute(key: string, value: string)
      modifies this`attributes
      ensures attributes == old(attributes)[key := value]
    {
      attributes := attributes[key := value];
    }
  }
}
