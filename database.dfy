/** The backend the portal talks to, as an in-memory store: the four tables
    the core reads and writes. Each query or write of the source becomes a
    read or an assignment of one of these fields; whether a call fails is
    decided by the caller (a parameter of each operation). */
module Database {
  import opened Model

  class Store {
    var requests: seq<RequestRow>
    var comments: seq<CommentRow>
    var settings: seq<SettingsRow>
    var profiles: seq<ProfileRow>

    /** The primary key of `wifi_requests` holds. */
    ghost predicate Valid()
      reads this
    {
      UniqueIds(requests)
    }

    constructor (requests: seq<RequestRow>, comments: seq<CommentRow>, settings: seq<SettingsRow>, profiles: seq<ProfileRow>)
      requires UniqueIds(requests)
      ensures Valid()
      ensures this.requests == requests && this.comments == comments
      ensures this.settings == settings && this.profiles == profiles
    {
      this.requests := requests;
      this.comments := comments;
      this.settings := settings;
      this.profiles := profiles;
    }
  }

  /** `.update({ status: s }).eq('id', id)` on `wifi_requests`: every row with
      that id gets the new status, nothing else changes. */
  function SetStatus(rows: seq<RequestRow>, id: string, s: Status): (r: seq<RequestRow>)
    ensures |r| == |rows|
    ensures forall i :: 0 <= i < |rows| ==>
              r[i] == if rows[i].id == id then rows[i].(status := s) else rows[i]
  {
    seq(|rows|, i requires 0 <= i < |rows| => if rows[i].id == id then rows[i].(status := s) else rows[i])
  }

  /** `.update({ status: s, was_escalated: true }).eq('id', id)`. */
  function SetStatusFlagged(rows: seq<RequestRow>, id: string, s: Status): (r: seq<RequestRow>)
    ensures |r| == |rows|
    ensures forall i :: 0 <= i < |rows| ==>
              r[i] == if rows[i].id == id then rows[i].(status := s, wasEscalated := Some(true)) else rows[i]
  {
    seq(|rows|, i requires 0 <= i < |rows| =>
      if rows[i].id == id then rows[i].(status := s, wasEscalated := Some(true)) else rows[i])
  }

  /** A write that only touches rows by id keeps the primary key. */
  lemma SetStatusKeepsIds(rows: seq<RequestRow>, id: string, s: Status)
    requires UniqueIds(rows)
    ensures UniqueIds(SetStatus(rows, id, s)) && UniqueIds(SetStatusFlagged(rows, id, s))
  {
  }
}
