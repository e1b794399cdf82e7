/**
 * The capture-group cursor the decoder walks over a matched sentence.
 *
 * The matcher's groups are a sequence of `Option<string>` (`None` for a group
 * that did not take part in the match). The cursor's rules:
 *   - `HasNext` is false for an absent or empty group and then steps past it;
 *     it is true, and does not move, for a present group;
 *   - `Next`, `NextInt`, `NextDouble` and their defaulting forms consume
 *     exactly one group, present or not;
 *   - `NextCoordinate` consumes exactly three groups (degrees, minutes,
 *     hemisphere).
 */
module Parsing {
  import opened Wrappers
  import opened Numbers

  /** What reading one group gives: nothing there, a value, or text that does not parse (an exception). */
  datatype Reading<T> = Missing | Read(value: T) | Malformed

  /** A group that took part in the match and is not empty. */
  predicate Present(group: Option<string>) {
    group.Some? && |group.value| > 0
  }

  /** `nextInt()`: `null` for an absent group, else `Integer.parseInt` of it. */
  function ReadInt(group: Option<string>): (r: Reading<int32>)
    ensures r.Missing? <==> !Present(group)
    ensures r.Read? ==> ParseInt(group.value) == Some(r.value)
    ensures r.Malformed? <==> Present(group) && ParseInt(group.value).None?
  {
    if !Present(group) then Missing
    else match ParseInt(group.value)
      case Some(v) => Read(v)
      case None => Malformed
  }

  /** `nextInt(default)`: like `ReadInt`, but an absent group reads as `default`. */
  function ReadIntOr(group: Option<string>, default: int32): (r: Reading<int32>)
    ensures !r.Missing?
    ensures !Present(group) ==> r == Read(default)
    ensures Present(group) ==> r == ReadInt(group)
  {
    match ReadInt(group)
    case Missing => Read(default)
    case other => other
  }

  /** `nextDouble()`: `null` for an absent group, else `Double.parseDouble` of it. */
  function ReadDouble(group: Option<string>): (r: Reading<real>)
    ensures r.Missing? <==> !Present(group)
    ensures r.Read? ==> ParseDouble(group.value) == Some(r.value)
    ensures r.Malformed? <==> Present(group) && ParseDouble(group.value).None?
  {
    if !Present(group) then Missing
    else match ParseDouble(group.value)
      case Some(v) => Read(v)
      case None => Malformed
  }

  /** `nextDouble(default)`. */
  function ReadDoubleOr(group: Option<string>, default: real): (r: Reading<real>)
    ensures !r.Missing?
    ensures !Present(group) ==> r == Read(default)
    ensures Present(group) ==> r == ReadDouble(group)
  {
    match ReadDouble(group)
    case Missing => Read(default)
    case other => other
  }

  /** The three groups `nextCoordinate()` consumes, left unconverted. */
  datatype RawCoordinate = RawCoordinate(degrees: Option<string>, minutes: Option<string>, hemisphere: Option<string>)

  class Parser {
    const groups: seq<Option<string>>
    var position: nat

    constructor (groups: seq<Option<string>>)
      ensures this.groups == groups && position == 0
    {
      this.groups := groups;
      position := 0;
    }

    method HasNext() returns (present: bool)
      requires position < |groups|
      modifies this
      ensures present == Present(groups[old(position)])
      ensures position == if present then old(position) else old(position) + 1
    {
      present := Present(groups[position]);
      if !present {
        position := position + 1;
      }
    }

    method Next() returns (group: Option<string>)
      requires position < |groups|
      modifies this
      ensures group == groups[old(position)]
      ensures position == old(position) + 1
    {
      group := groups[position];
      position := position + 1;
    }

    method NextInt() returns (r: Reading<int32>)
      requires position < |groups|
      modifies this
      ensures r == ReadInt(groups[old(position)])
      ensures position == old(position) + 1
    {
      var present := HasNext();
      if present {
        var group := Next();
        r := match ParseInt(group.value) case Some(v) => Read(v) case None => Malformed;
      } else {
        r := Missing;
      }
    }

    method NextIntOr(default: int32) returns (r: Reading<int32>)
      requires position < |groups|
      modifies this
      ensures r == ReadIntOr(groups[old(position)], default)
      ensures position == old(position) + 1
    {
      r := NextInt();
      if r.Missing? {
        r := Read(default);
      }
    }

    method NextDouble() returns (r: Reading<real>)
      requires position < |groups|
      modifies this
      ensures r == ReadDouble(groups[old(position)])
      ensures position == old(position) + 1
    {
      var present := HasNext();
      if present {
        var group := Next();
        r := match ParseDouble(group.value) case Some(v) => Read(v) case None => Malformed;
      } else {
        r := Missing;
      }
    }

    method NextDoubleOr(default: real) returns (r: Reading<real>)
      requires position < |groups|
      modifies this
      ensures r == ReadDoubleOr(groups[old(position)], default)
      ensures position == old(position) + 1
    {
      r := NextDouble();
      if r.Missing? {
        r := Read(default);
      }
    }

    method NextCoordinate() returns (c: RawCoordinate)
      requires position + 3 <= |groups|
      modifies this
      ensures c == RawCoordinate(groups[old(position)], groups[old(position) + 1], groups[old(position) + 2])
      ensures position == old(position) + 3
    {
      c := RawCoordinate(groups[position], groups[position + 1], groups[position + 2]);
      position := position + 3;
    }
  }
}
