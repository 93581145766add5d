/** The Room record and the rooms collection (server/models/Room.js). */
module RoomSchema {

  /** A chat room: its display name, its join code and the usernames that joined it. */
  datatype Room = Room(name: string, code: string, members: seq<string>)

  /** The schema's validation: `name` and `code` are required strings, and a required string must be non-empty. */
  predicate Valid(r: Room) {
    r.name != "" && r.code != ""
  }

  /** The rooms collection, indexed by the unique `code`. */
  type Registry = map<string, Room>

  predicate NoDuplicates(s: seq<string>) {
    forall i, j :: 0 <= i < j < |s| ==> s[i] != s[j]
  }

  /** What the collection guarantees: every room is valid and filed under its own code. */
  predicate Consistent(rooms: Registry) {
    forall c :: c in rooms ==> rooms[c].code == c && Valid(rooms[c])
  }

  /** What the route handlers maintain on top of that: nobody is listed twice in a room. */
  predicate WellFormed(rooms: Registry) {
    && Consistent(rooms)
    && forall c :: c in rooms ==> NoDuplicates(rooms[c].members)
  }

  /** The unique index on `code`: two stored rooms never share a code. */
  lemma CodesUnique(rooms: Registry, c1: string, c2: string)
    requires Consistent(rooms)
    requires c1 in rooms && c2 in rooms && c1 != c2
    ensures rooms[c1].code != rooms[c2].code
  {
  }

  /** The schema alone does not keep `members` free of repeats; only the join handler does. */
  lemma SchemaAdmitsRepeatedMembers()
    ensures exists r :: Valid(r) && !NoDuplicates(r.members)
  {
    var r := Room("r", "C", ["u", "u"]);
    assert r.members[0] == r.members[1];
    assert Valid(r) && !NoDuplicates(r.members);
  }
}
