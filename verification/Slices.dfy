/** Go slices over a backing array, as far as append and append(list[:i], list[i+1:]...) go. */
module Slices {
  import opened Bytes

  function Position<T(==)>(s: seq<T>, x: T): (i: nat)
    ensures i <= |s|
    ensures x in s <==> i < |s|
    ensures i < |s| ==> s[i] == x
    ensures x !in s[..i]
  {
    if s == [] || s[0] == x then 0
    else
      var j := Position(s[1..], x);
      assert s == [s[0]] + s[1..] && s[..1 + j] == [s[0]] + s[1..][..j];
      1 + j
  }

  function Without<T>(s: seq<T>, i: nat): seq<T>
    requires i < |s|
  {
    s[..i] + s[i + 1..]
  }

  /** The list without the first occurrence of x, the others in their order. */
  function WithoutFirst<T(==)>(s: seq<T>, x: T): seq<T> {
    if x in s then Without(s, Position(s, x)) else s
  }

  /** A backing array after an append to its first len cells: written in place while there is room. */
  function Appended(cells: seq<nat>, len: nat, ch: nat): seq<nat>
    requires len <= |cells|
  {
    if len < |cells| then cells[len := ch] else cells
  }

  /** A backing array after the i-th of its first len cells was removed: the last of them keeps its value. */
  function Shifted(cells: seq<nat>, len: nat, i: nat): seq<nat>
    requires i < len <= |cells|
  {
    cells[..i] + cells[i + 1..len] + cells[len - 1..]
  }

  lemma ShiftedFrom(cells: seq<nat>, len: nat, i: nat)
    requires i < len <= |cells|
    ensures |Shifted(cells, len, i)| == |cells|
    ensures forall k :: 0 <= k < |cells| ==> Shifted(cells, len, i)[k] == cells[if i <= k < len - 1 then k + 1 else k]
  {
  }

  /** A broker's registry: the channels of each room that has any, in the order they subscribed. */
  type Registry = map<Str, seq<nat>>

  function Channels(subs: Registry, room: Str): seq<nat> {
    if room in subs then subs[room] else []
  }

  function Subscribed(subs: Registry, room: Str, channel: nat): Registry {
    subs[room := Channels(subs, room) + [channel]]
  }

  /** The broker's cancel: the channel leaves the room's list, and an empty list leaves the registry. */
  function Cancelled(subs: Registry, room: Str, channel: nat): Registry {
    var left := WithoutFirst(Channels(subs, room), channel);
    if left == [] then subs - {room} else subs[room := left]
  }
}
