/** The browser-side member store (`src/lib/memberStore.ts`): the whole roster kept as
    one serialized blob under the key `paletto_team_members`, seeded from the built-in
    roster on first use. JSON text is abstracted into the four states the code tells
    apart; whether a browser `window` exists is fixed when the store is created. */
module MemberStore {
  import opened Types
  import opened Roster
  import opened SeedRoster
  import opened MemberIds

  /** What `localStorage.getItem` yields for the roster key. */
  datatype Blob =
    | Absent                      // no item: `getItem` returns null
    | Empty                       // the empty string: present, but falsy
    | Malformed                   // text that `JSON.parse` rejects
    | Stored(members: seq<Member>) // a serialized roster

  /** `generateMemberId` of the browser store, with the clock as a parameter. */
  function GenerateMemberId(name: string, now: nat): string {
    GenerateId(name, now, false)
  }

  class Store {
    /** `typeof window !== 'undefined'`: false while rendering on the server. */
    const inBrowser: bool
    var blob: Blob

    constructor (inBrowser: bool, blob: Blob)
      ensures this.inBrowser == inBrowser && this.blob == blob
    {
      this.inBrowser := inBrowser;
      this.blob := blob;
    }

    /** The roster that `getStoredMembers` returns in the current state. */
    function Current(): seq<Member>
      reads this
    {
      if !inBrowser then TeamMembers()
      else match blob
        case Stored(ms) => ms
        case _ => TeamMembers()
    }

    /** `getStoredMembers`: an absent or empty blob is replaced by the seed roster;
        a malformed one is left as it is while the seed roster is returned. Reading
        never changes the roster a later read returns. */
    method GetStoredMembers() returns (ms: seq<Member>)
      modifies this
      ensures ms == old(Current()) && Current() == ms
      ensures blob == if inBrowser && (old(blob).Absent? || old(blob).Empty?)
                      then Stored(TeamMembers()) else old(blob)
    {
      if !inBrowser {
        return TeamMembers();
      }
      match blob
      case Stored(stored) =>
        ms := stored;
      case Malformed =>
        ms := TeamMembers();
      case _ =>
        blob := Stored(TeamMembers());
        ms := TeamMembers();
    }

    /** `saveMembers`: overwrites the blob, except on the server, where it does nothing. */
    method SaveMembers(ms: seq<Member>)
      modifies this
      ensures blob == if inBrowser then Stored(ms) else old(blob)
    {
      if !inBrowser {
        return;
      }
      blob := Stored(ms);
    }

    /** `addMember`: the new member goes to the end, everything before stays in order,
        and the stored blob is the returned list. */
    method AddMember(m: Member) returns (ms: seq<Member>)
      modifies this
      ensures ms == old(Current()) + [m]
      ensures blob == if inBrowser then Stored(ms) else old(blob)
    {
      var members := GetStoredMembers();
      ms := members + [m];
      SaveMembers(ms);
    }

    /** `updateMember`: every member carrying the id becomes `updated`. */
    method UpdateMember(id: string, updated: Member) returns (ms: seq<Member>)
      modifies this
      ensures ms == ReplaceById(old(Current()), id, updated)
      ensures blob == if inBrowser then Stored(ms) else old(blob)
    {
      var members := GetStoredMembers();
      ms := ReplaceById(members, id, updated);
      SaveMembers(ms);
    }

    /** `deleteMember`: every member carrying the id is dropped. */
    method DeleteMember(id: string) returns (ms: seq<Member>)
      modifies this
      ensures ms == RemoveById(old(Current()), id)
      ensures blob == if inBrowser then Stored(ms) else old(blob)
    {
      var members := GetStoredMembers();
      ms := RemoveById(members, id);
      SaveMembers(ms);
    }

    /** `getMemberById`: the first stored member carrying the id. Like every read it may
        seed an absent blob, and it leaves the roster as it was. */
    method GetMemberById(id: string) returns (r: Option<Member>)
      modifies this
      ensures r == FindById(old(Current()), id) && Current() == old(Current())
      ensures blob == if inBrowser && (old(blob).Absent? || old(blob).Empty?)
                      then Stored(TeamMembers()) else old(blob)
      ensures r.Some? ==> r.value.id == id && r.value in Current()
      ensures r.None? <==> !HasId(Current(), id)
    {
      var members := GetStoredMembers();
      FindByIdSpec(members, id);
      r := FindById(members, id);
    }
  }

  /** A malformed blob survives reads, which fall back to the seed roster; the next
      mutation overwrites it with a list built on the seed. */
  method MalformedThenAdd(m: Member) returns (first: seq<Member>, afterRead: Blob, added: seq<Member>, afterAdd: Blob)
    ensures first == TeamMembers() && afterRead == Malformed
    ensures added == TeamMembers() + [m] && afterAdd == Stored(added)
  {
    var store := new Store(true, Malformed);
    first := store.GetStoredMembers();
    afterRead := store.blob;
    added := store.AddMember(m);
    afterAdd := store.blob;
  }

  /** With nothing stored, the first read writes the seed roster and a second read
      returns the same list. */
  method AbsentThenReadTwice() returns (first: seq<Member>, written: Blob, second: seq<Member>)
    ensures first == TeamMembers() && written == Stored(TeamMembers())
    ensures second == first
  {
    var store := new Store(true, Absent);
    first := store.GetStoredMembers();
    written := store.blob;
    second := store.GetStoredMembers();
  }

  /** On the server nothing is ever stored: the blob is never touched and reads return
      the seed roster even after a deletion. */
  method ServerIgnoresWrites(id: string, blob: Blob) returns (deleted: seq<Member>, reread: seq<Member>, kept: Blob)
    ensures deleted == RemoveById(TeamMembers(), id)
    ensures reread == TeamMembers() && kept == blob
  {
    var store := new Store(false, blob);
    deleted := store.DeleteMember(id);
    reread := store.GetStoredMembers();
    kept := store.blob;
  }

  /** Deleting the same id twice leaves the same list as deleting it once. */
  method DeleteTwice(blob: Blob, id: string) returns (once: seq<Member>, twice: seq<Member>)
    ensures twice == once && !HasId(once, id)
  {
    var store := new Store(true, blob);
    ghost var initial := store.Current();
    once := store.DeleteMember(id);
    twice := store.DeleteMember(id);
    RemoveByIdIdempotent(initial, id);
  }
}
