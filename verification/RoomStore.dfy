/** Get-or-create of direct-message rooms, in Redis or in the process when there is none. */
module RoomStore {
  import opened Bytes
  import opened RoomIdentity

  datatype RoomMeta = RoomMeta(roomID: Str, createdBy: Str, createdAt: int, memberIDs: seq<Str>)

  /** A save that fails hands back the room it did not save along with the error. */
  datatype Result<T> = Ok(value: T) | MissingMember | SaveFailed(value: T)

  type Rooms = map<Str, RoomMeta>

  /** How the two Redis commands of one call go. A failed read is taken for an absent room. */
  datatype Luck = Luck(readOk: bool, saveOk: bool)

  const ALL_WELL: Luck := Luck(true, true)

  function NewDM(userA: Str, userB: Str, createdBy: Str, now: int): RoomMeta {
    RoomMeta(CanonicalDM(userA, userB), createdBy, now, [Min(userA, userB), Max(userA, userB)])
  }

  /** The store after a create, and what the caller gets. */
  function Created(rooms: Rooms, userA: Str, userB: Str, createdBy: Str, now: int, luck: Luck): (Rooms, Result<RoomMeta>) {
    var id := CanonicalDM(userA, userB);
    if userA == [] || userB == [] then (rooms, MissingMember)
    else if luck.readOk && id in rooms then (rooms, Ok(rooms[id]))
    else
      var meta := NewDM(userA, userB, createdBy, now);
      if luck.saveOk then (rooms[id := meta], Ok(meta)) else (rooms, SaveFailed(meta))
  }

  class Store {
    const redis: bool
    var mem: Rooms
    var remote: Rooms

    constructor (redis: bool)
      ensures this.redis == redis && mem == map[] && remote == map[]
    {
      this.redis := redis;
      mem, remote := map[], map[];
    }

    ghost function Rooms(): Rooms
      reads this
    {
      if redis then remote else mem
    }

    method Get(roomID: Str, readOk: bool) returns (found: bool, meta: RoomMeta)
      ensures found <==> (redis ==> readOk) && roomID in Rooms()
      ensures found ==> meta == Rooms()[roomID]
    {
      found, meta := false, RoomMeta([], [], 0, []);
      if redis {
        if readOk && roomID in remote {
          found, meta := true, remote[roomID];
        }
      } else if roomID in mem {
        found, meta := true, mem[roomID];
      }
    }

    method Save(meta: RoomMeta, saveOk: bool) returns (saved: bool)
      modifies this
      ensures saved <==> (redis ==> saveOk)
      ensures Rooms() == if saved then old(Rooms())[meta.roomID := meta] else old(Rooms())
    {
      saved := true;
      if redis {
        saved := saveOk;
        if saveOk {
          remote := remote[meta.roomID := meta];
        }
      } else {
        mem := mem[meta.roomID := meta];
      }
    }

    method CreateDM(userA: Str, userB: Str, createdBy: Str, now: int, luck: Luck) returns (r: Result<RoomMeta>)
      modifies this
      ensures (Rooms(), r) == Created(old(Rooms()), userA, userB, createdBy, now, if redis then luck else ALL_WELL)
      ensures r.MissingMember? <==> userA == [] || userB == []
      ensures !r.MissingMember? ==>
                var id := CanonicalDM(userA, userB);
                if (redis ==> luck.readOk) && id in old(Rooms())
                then r == Ok(old(Rooms())[id]) && Rooms() == old(Rooms())
                else
                  && r.value.roomID == id && r.value.createdBy == createdBy && r.value.createdAt == now
                  && (r.value.memberIDs == [userA, userB] || r.value.memberIDs == [userB, userA])
                  && !Less(r.value.memberIDs[1], r.value.memberIDs[0])
                  && (r.Ok? <==> (redis ==> luck.saveOk))
                  && Rooms() == if r.Ok? then old(Rooms())[id := r.value] else old(Rooms())
    {
      if userA == [] || userB == [] {
        return MissingMember;
      }
      LessAsymmetric(userA, userB);
      var ids := if Less(userB, userA) then [userB, userA] else [userA, userB];
      var roomID := DM_COLON + (ids[0] + [COLON] + ids[1]);
      var found, existing := Get(roomID, luck.readOk);
      if found {
        return Ok(existing);
      }
      var meta := RoomMeta(roomID, createdBy, now, ids);
      var saved := Save(meta, luck.saveOk);
      return if saved then Ok(meta) else SaveFailed(meta);
    }
  }

  /** Asking again, from either side, returns the room of the first request and changes nothing. */
  lemma CreateIsGetAfterwards(rooms: Rooms, a: Str, b: Str, creator: Str, now: int, luck: Luck, creator2: Str, now2: int)
    requires a != [] && b != [] && luck.saveOk
    ensures var (rooms1, first) := Created(rooms, a, b, creator, now, luck);
            && Created(rooms1, b, a, creator2, now2, ALL_WELL) == (rooms1, first)
            && first.Ok? && CanonicalDM(a, b) in rooms1
  {
    CanonicalSymmetric(a, b);
  }

  datatype Request = Request(a: Str, b: Str, creator: Str, now: int, luck: Luck)

  function Served(rooms: Rooms, r: Request): Rooms {
    Created(rooms, r.a, r.b, r.creator, r.now, r.luck).0
  }

  /** A request that gets the id, fails to read its room and writes a different one over it. */
  predicate Overwrites(id: Str, meta: RoomMeta, r: Request) {
    && r.a != [] && r.b != [] && CanonicalDM(r.a, r.b) == id
    && !r.luck.readOk && r.luck.saveOk && NewDM(r.a, r.b, r.creator, r.now) != meta
  }

  predicate KeptThroughout(rooms: Rooms, id: Str, meta: RoomMeta, requests: seq<Request>)
    decreases |requests|
  {
    && id in rooms && rooms[id] == meta
    && (requests == [] || KeptThroughout(Served(rooms, requests[0]), id, meta, requests[1..]))
  }

  lemma ServedKeepsIff(rooms: Rooms, id: Str, r: Request)
    requires id in rooms
    ensures id in Served(rooms, r) && (Served(rooms, r)[id] == rooms[id] <==> !Overwrites(id, rooms[id], r))
  {
  }

  /** However many requests follow, of any pairs: a room stays as it is throughout iff none of them overwrites it. */
  lemma {:induction false} RoomKeptIff(rooms: Rooms, id: Str, requests: seq<Request>)
    requires id in rooms
    ensures KeptThroughout(rooms, id, rooms[id], requests) <==>
            forall k :: 0 <= k < |requests| ==> !Overwrites(id, rooms[id], requests[k])
    decreases |requests|
  {
    if requests != [] {
      ServedKeepsIff(rooms, id, requests[0]);
      if !Overwrites(id, rooms[id], requests[0]) {
        RoomKeptIff(Served(rooms, requests[0]), id, requests[1..]);
        assert forall k :: 1 <= k < |requests| ==> requests[k] == requests[1..][k - 1];
      } else {
        KeptFirst(rooms, id, requests);
      }
    }
  }

  lemma KeptFirst(rooms: Rooms, id: Str, requests: seq<Request>)
    requires id in rooms && requests != []
    ensures KeptThroughout(rooms, id, rooms[id], requests) ==>
              id in Served(rooms, requests[0]) && Served(rooms, requests[0])[id] == rooms[id]
  {
    assert KeptThroughout(rooms, id, rooms[id], requests) ==>
             KeptThroughout(Served(rooms, requests[0]), id, rooms[id], requests[1..]);
  }

  /** Creating one pair's room makes another pair's room exist iff the two share an id; no other room changes. */
  lemma OtherPairsIff(rooms: Rooms, a: Str, b: Str, c: Str, d: Str, creator: Str, now: int)
    requires a != [] && b != []
    ensures var rooms1 := Created(rooms, a, b, creator, now, ALL_WELL).0;
            var id := CanonicalDM(c, d);
            && (id in rooms1 <==> id in rooms || ShareID(a, b, c, d))
            && (id in rooms ==> rooms1[id] == rooms[id])
  {
    CanonicalSharedIff(a, b, c, d);
  }

  /** On rooms where neither exists, the second pair is handed the first pair's room iff they share an id. */
  lemma SecondPairGetsFirstIff(rooms: Rooms, a: Str, b: Str, c: Str, d: Str, creator: Str, now: int, creator2: Str, now2: int)
    requires a != [] && b != [] && c != [] && d != []
    requires CanonicalDM(a, b) !in rooms && CanonicalDM(c, d) !in rooms
    ensures var (rooms1, first) := Created(rooms, a, b, creator, now, ALL_WELL);
            Created(rooms1, c, d, creator2, now2, ALL_WELL).1 == first <==> ShareID(a, b, c, d)
  {
    CanonicalSharedIff(a, b, c, d);
  }

  /** One id, one room: whoever asks second gets the room of the first request. */
  lemma SameIDSameRoom(rooms: Rooms, a: Str, b: Str, c: Str, d: Str, creator: Str, now: int, creator2: Str, now2: int)
    requires a != [] && b != [] && c != [] && d != [] && CanonicalDM(a, b) == CanonicalDM(c, d)
    ensures var (rooms1, first) := Created(rooms, a, b, creator, now, ALL_WELL);
            Created(rooms1, c, d, creator2, now2, ALL_WELL) == (rooms1, first)
  {
  }

  lemma CutsDiffer(x: Str, y: Str, z: Str)
    requires Less(x + [COLON] + y, z)
    ensures !SamePair(x, y + [COLON] + z, x + [COLON] + y, z)
  {
    assert |x| < |x + [COLON] + y|;
    PrefixNotAbove(x, [COLON] + y);
    assert x + ([COLON] + y) == x + [COLON] + y;
  }

  lemma CutsShareID(x: Str, y: Str, z: Str)
    requires Less(x, y + [COLON] + z) && Less(x + [COLON] + y, z)
    ensures CanonicalDM(x, y + [COLON] + z) == CanonicalDM(x + [COLON] + y, z)
  {
    LessAsymmetric(x, y + [COLON] + z);
    LessAsymmetric(x + [COLON] + y, z);
    Regroup(x, COLON, y, z);
  }

  /** Different pairs do share: {x, y:z} and {x:y, z} are two pairs, and the second gets the room of the first. */
  lemma ColonIdsShareARoom(rooms: Rooms, x: Str, y: Str, z: Str, creator: Str, now: int, creator2: Str, now2: int)
    requires x != [] && z != [] && Less(x, y + [COLON] + z) && Less(x + [COLON] + y, z)
    ensures !SamePair(x, y + [COLON] + z, x + [COLON] + y, z)
    ensures var (rooms1, first) := Created(rooms, x, y + [COLON] + z, creator, now, ALL_WELL);
            Created(rooms1, x + [COLON] + y, z, creator2, now2, ALL_WELL) == (rooms1, first)
  {
    CutsDiffer(x, y, z);
    CutsShareID(x, y, z);
    SameIDSameRoom(rooms, x, y + [COLON] + z, x + [COLON] + y, z, creator, now, creator2, now2);
  }

  lemma {:induction false} PrefixNotAbove(x: Str, y: Str)
    ensures !Less(x + y, x)
  {
    if x != [] {
      PrefixNotAbove(x[1..], y);
      assert (x + y)[1..] == x[1..] + y;
    }
  }
}
