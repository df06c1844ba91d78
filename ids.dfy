/**
  Identities of signals: a name plus tags, and the measurements reported
  for them. An identity is an immutable value with equality by content.
 */
module Ids {
  import opened Wrappers

  /** One tag of an identity, a key and a value. */
  datatype Tag = Tag(key: string, value: string)

  /**
    A tag collection, listed in its iteration order. The hash map behind the
    collection iterates in an order the program does not fix; the model fixes
    it as the order of this sequence.
   */
  type Tags = seq<Tag>

  /** The identity of a signal. */
  datatype Id = Id(name: string, tags: Tags)

  /** A point-in-time value reported for one identity (a double in the source). */
  datatype Measurement = Measurement(id: Id, value: real)

  /** The value of the first tag with the given key, if any. */
  function Find(tags: Tags, key: string): (r: Option<string>)
    ensures r.Some? <==> exists i :: 0 <= i < |tags| && tags[i].key == key
    ensures r.Some? ==> Tag(key, r.value) in tags
  {
    if tags == [] then None
    else if tags[0].key == key then Some(tags[0].value)
    else
      var r := Find(tags[1..], key);
      assert forall i :: 1 <= i < |tags| ==> tags[i] == tags[1..][i - 1];
      r
  }

  /**
    Adds the tag key=value, replacing the value of an existing tag with
    that key (the tag collection's `add`).
   */
  function SetTag(tags: Tags, key: string, value: string): (r: Tags)
    ensures Find(r, key) == Some(value)
    ensures forall k :: k != key ==> Find(r, k) == Find(tags, k)
  {
    if tags == [] then [Tag(key, value)]
    else if tags[0].key == key then [Tag(key, value)] + tags[1..]
    else [tags[0]] + SetTag(tags[1..], key, value)
  }

  /** The identity with the tag statistic=stat added or overridden. */
  function WithStat(id: Id, stat: string): (r: Id)
    ensures r.name == id.name
    ensures Find(r.tags, "statistic") == Some(stat)
    ensures forall k :: k != "statistic" ==> Find(r.tags, k) == Find(id.tags, k)
  {
    Id(id.name, SetTag(id.tags, "statistic", stat))
  }
}
