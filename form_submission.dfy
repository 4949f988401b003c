/** Guest submission (`submitWifiRequest`): the tracking id made from the
    guest's name and room, the random suffix on a collision, and the insert
    of the new pending request. */
module FormSubmission {
  import opened Seqs
  import opened Text
  import opened Model
  import opened Database

  /** What the guest form sends. */
  datatype FormData = FormData(name: string, email: string, roomNumber: string,
                               deviceType: DeviceType, issueType: IssueType, description: string)

  /** `generateTrackingId`: the first four characters of the name (fewer if it
      is shorter) in lower case, then the room number with its white space
      removed. */
  function GenerateTrackingId(name: string, roomNumber: string): (id: string)
    ensures |id| == Min(4, |name|) + |Filter(roomNumber, IsNotSpace)|
    ensures id == ToLowerAscii(name[..Min(4, |name|)]) + Filter(roomNumber, IsNotSpace)
    ensures forall i :: Min(4, |name|) <= i < |id| ==> !IsSpace(id[i]) && id[i] in roomNumber
  {
    var prefix := ToLowerAscii(name[..Min(4, |name|)]);
    RemoveSpaceRunsIsFilter(roomNumber);
    var room := RemoveSpaceRuns(roomNumber);
    assert (prefix + room)[|prefix|..] == room;
    prefix + room
  }

  /** Removing white space keeps a room number exactly when it has none:
      "101-A" or "2.04" come through unchanged, "101 A" does not. */
  lemma RoomWithoutSpaceKept(s: string)
    ensures RemoveSpaceRuns(s) == s <==> forall i :: 0 <= i < |s| ==> IsNotSpace(s[i])
  {
    RemoveSpaceRunsIsFilter(s);
    if forall i :: 0 <= i < |s| ==> IsNotSpace(s[i]) {
      FilterKeepsAll(s, IsNotSpace);
    } else {
      var k :| 0 <= k < |s| && !IsNotSpace(s[k]);
      FilterDropShortens(s, IsNotSpace, k);
    }
  }

  /** The example of the id format: "John Doe" in room "101 A" gets
      "john101A"; only the name part is lower-cased. */
  lemma TrackingIdExample(name: string, room: string)
    requires name == "John Doe" && room == "101 A"
    ensures GenerateTrackingId(name, room) == "john101A"
  {
    assert Filter(room, IsNotSpace) == "101A" by {
      var kept, dropped, last := room[..3], room[3..4], room[4..];
      assert room[3] == ' ' && room[4] == 'A' && |room| == 5;
      assert room == kept + dropped + last;
      assert kept == "101" && dropped == " " && last == "A";
      assert IsNotSpace('1') && IsNotSpace('0') && IsNotSpace('A') && !IsNotSpace(' ');
      FilterAroundDropped(kept, dropped, last, IsNotSpace);
    }
    assert ToLowerAscii(name[..4]) == "john";
    var whole := "john" + "101A";
    assert whole[0] == 'j' && whole[1] == 'o' && whole[2] == 'h' && whole[3] == 'n';
    assert whole[4] == '1' && whole[5] == '0' && whole[6] == '1' && whole[7] == 'A';
  }

  /** `Math.floor(Math.random() * 100)` for a draw `rand` in [0, 1). */
  function Suffix(rand: real): (n: nat)
    requires 0.0 <= rand < 1.0
    ensures n <= 99
    ensures n as real <= rand * 100.0 < n as real + 1.0
  {
    (rand * 100.0).Floor
  }

  /** The id inserted: the base id, or `base-n` when the existence check found
      a row with the base id. A failed check finds nothing. */
  function FinalId(base: string, found: bool, rand: real): (id: string)
    requires 0.0 <= rand < 1.0
  {
    if found then base + "-" + NatToString(Suffix(rand)) else base
  }

  /** The id keeps the base as a prefix; when suffixed, it is the base, a dash
      and a one- or two-digit number with no leading zero below 99, and it
      differs from the base. */
  lemma FinalIdShape(base: string, found: bool, rand: real)
    requires 0.0 <= rand < 1.0
    ensures var id := FinalId(base, found, rand);
            && id[..|base|] == base
            && (!found ==> id == base)
            && (found ==> && id != base
                          && id[|base|] == '-'
                          && 1 <= |id| - |base| - 1 <= 2
                          && IsDigits(id[|base| + 1..])
                          && ParseDecimal(id[|base| + 1..]) == Suffix(rand))
  {
    if found {
      var n := Suffix(rand);
      var id := FinalId(base, found, rand);
      assert id[|base| + 1..] == NatToString(n);
      ParseNatToString(n);
    }
  }

  /** `.select('id').eq('id', base).maybeSingle()` found a row. */
  predicate IdTaken(rows: seq<RequestRow>, id: string)
  {
    exists i :: 0 <= i < |rows| && rows[i].id == id
  }

  /** The row inserted: the form's fields verbatim, status pending, the
      timestamps set by the database at `now`, no escalation flag. */
  function NewRow(form: FormData, id: string, now: int): (row: RequestRow)
    ensures row.id == id && row.status == Pending && row.wasEscalated == None
    ensures row.name == form.name && row.email == form.email && row.roomNumber == form.roomNumber
    ensures row.deviceType == form.deviceType && row.issueType == form.issueType
    ensures row.description == Some(form.description)
    ensures row.createdAt == now && row.updatedAt == now
  {
    RequestRow(id, form.name, form.email, form.roomNumber, form.deviceType, form.issueType,
               Some(form.description), Pending, now, now, None)
  }

  /** The id the submission tries to insert, given whether the existence
      check failed. */
  function ChosenId(rows: seq<RequestRow>, form: FormData, rand: real, checkFails: bool): string
    requires 0.0 <= rand < 1.0
  {
    var base := GenerateTrackingId(form.name, form.roomNumber);
    FinalId(base, !checkFails && IdTaken(rows, base), rand)
  }

  /** `submitWifiRequest`. The insert fails when the database reports an
      error (`insertFails`) or the chosen id is already taken; on success the
      new request's id is returned. */
  method SubmitWifiRequest(store: Store, form: FormData, now: int, rand: real, checkFails: bool, insertFails: bool)
    returns (trackingId: Option<string>)
    requires 0.0 <= rand < 1.0
    requires store.Valid()
    modifies store
    ensures store.Valid()
    ensures store.comments == old(store.comments) && store.settings == old(store.settings)
    ensures store.profiles == old(store.profiles)
    ensures var id := ChosenId(old(store.requests), form, rand, checkFails);
            if insertFails || IdTaken(old(store.requests), id)
            then trackingId.None? && store.requests == old(store.requests)
            else trackingId == Some(id) && store.requests == old(store.requests) + [NewRow(form, id, now)]
  {
    var id := GenerateTrackingId(form.name, form.roomNumber);
    var found := false;
    if !checkFails {
      found := exists i :: 0 <= i < |store.requests| && store.requests[i].id == id;
    }
    if found {
      id := id + "-" + NatToString(Suffix(rand));
    }
    var taken := exists i :: 0 <= i < |store.requests| && store.requests[i].id == id;
    if insertFails || taken {
      return None;
    }
    store.requests := store.requests + [NewRow(form, id, now)];
    trackingId := Some(id);
  }

  /** After a successful submission the tracking id names exactly one
      request, the new pending one. */
  lemma SubmittedIsTrackable(rows: seq<RequestRow>, form: FormData, id: string, now: int)
    requires UniqueIds(rows) && !IdTaken(rows, id)
    ensures var after := rows + [NewRow(form, id, now)];
            && UniqueIds(after)
            && forall i :: 0 <= i < |after| && after[i].id == id ==> i == |rows| && after[i].status == Pending
  {
  }
}
