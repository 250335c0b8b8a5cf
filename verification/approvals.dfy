/** The approvals table of internal/store/approvals.go: rows are inserted as
    pending and leave that status by one conditional update. */
module Approvals {
  import opened Common

  datatype Status = Pending | Sent | Failed | Denied | Canceled

  datatype Approval = Approval(
    id: string, conversationId: string, body: string, replyToId: Option<string>, requestedBy: string,
    status: Status, error: Option<string>, messageId: Option<string>, createdAt: int, updatedAt: int)

  type Rows = map<string, Approval>

  /** Invalid stands for a rejected argument, Conflict for a primary-key clash. */
  datatype Outcome = Ok | NotFound | AlreadyResolved | Invalid | Conflict

  /** No terminal status recorded yet: absent, or present and pending. */
  predicate Open(rows: Rows, id: string) {
    id !in rows || rows[id].status == Pending
  }

  /** The part of a row that says what is to be sent. */
  predicate SameRequest(a: Approval, b: Approval) {
    && a.id == b.id && a.conversationId == b.conversationId && a.body == b.body
    && a.replyToId == b.replyToId && a.requestedBy == b.requestedBy && a.createdAt == b.createdAt
  }

  function Created(rows: Rows, a: Approval, now: int): (Rows, Outcome) {
    if a.id == "" || a.conversationId == "" || a.body == "" then (rows, Invalid)
    else if a.id in rows then (rows, Conflict)
    else
      var row := a.(status := Pending, error := None, messageId := None, createdAt := now, updatedAt := now);
      (rows[a.id := row], Ok)
  }

  function Resolved(rows: Rows, id: string, status: Status, error: Option<string>, messageId: Option<string>, now: int)
    : (Rows, Outcome)
  {
    if status == Pending then (rows, Invalid)
    else if id !in rows then (rows, NotFound)
    else if rows[id].status != Pending then (rows, AlreadyResolved)
    else (rows[id := rows[id].(status := status, error := error, messageId := messageId, updatedAt := now)], Ok)
  }

  class Store {
    var rows: Rows

    method CreateApproval(a: Approval, now: int) returns (r: Outcome)
      modifies this
      ensures (rows, r) == Created(old(rows), a, now)
    {
      if a.id == "" || a.conversationId == "" || a.body == "" {
        return Invalid;
      }
      if a.id in rows {
        return Conflict;
      }
      var row := a.(status := Pending, error := None, messageId := None, createdAt := now, updatedAt := now);
      rows := rows[a.id := row];
      return Ok;
    }

    method GetApproval(id: string) returns (r: Option<Approval>)
      ensures r == if id in rows then Some(rows[id]) else None
    {
      r := None;
      if id in rows {
        r := Some(rows[id]);
      }
    }

    method ResolveApproval(id: string, status: Status, error: Option<string>, messageId: Option<string>, now: int)
      returns (r: Outcome)
      modifies this
      ensures (rows, r) == Resolved(old(rows), id, status, error, messageId, now)
    {
      if status == Pending {
        return Invalid;
      }
      var changed := 0;
      if id in rows && rows[id].status == Pending {
        rows := rows[id := rows[id].(status := status, error := error, messageId := messageId, updatedAt := now)];
        changed := 1;
      }
      if changed == 0 {
        var row := GetApproval(id);
        if row.None? {
          return NotFound;
        }
        return AlreadyResolved;
      }
      return Ok;
    }
  }

  // ---- whole runs of store writes ----

  datatype Write =
    | Create(a: Approval, now: int)
    | Resolve(id: string, status: Status, error: Option<string>, messageId: Option<string>, now: int)

  function Apply(rows: Rows, w: Write): (Rows, Outcome) {
    match w
    case Create(a, now) => Created(rows, a, now)
    case Resolve(id, status, error, messageId, now) => Resolved(rows, id, status, error, messageId, now)
  }

  function Run(rows: Rows, ws: seq<Write>): Rows
    decreases |ws|
  {
    if ws == [] then rows else Run(Apply(rows, ws[0]).0, ws[1..])
  }

  /** How many resolves of the row succeed over a run. */
  function Wins(rows: Rows, ws: seq<Write>, id: string): nat
    decreases |ws|
  {
    if ws == [] then 0
    else
      var (rows', r) := Apply(rows, ws[0]);
      (if ws[0].Resolve? && ws[0].id == id && r == Ok then 1 else 0) + Wins(rows', ws[1..], id)
  }

  /** What a row asks for never changes, and a terminal row never changes at all. */
  lemma {:induction false} RowsAreStable(rows: Rows, ws: seq<Write>, id: string)
    requires id in rows
    ensures id in Run(rows, ws) && SameRequest(rows[id], Run(rows, ws)[id])
    ensures rows[id].status != Pending ==> Run(rows, ws)[id] == rows[id]
    decreases |ws|
  {
    if ws != [] {
      RowsAreStable(Apply(rows, ws[0]).0, ws[1..], id);
    }
  }

  /** A row leaves pending at most once, and by exactly one successful resolve. */
  lemma {:induction false} LeavesPendingOnce(rows: Rows, ws: seq<Write>, id: string)
    ensures Wins(rows, ws, id) == if Open(rows, id) && !Open(Run(rows, ws), id) then 1 else 0
    decreases |ws|
  {
    if ws != [] {
      var rows' := Apply(rows, ws[0]).0;
      LeavesPendingOnce(rows', ws[1..], id);
      if !Open(rows', id) {
        RowsAreStable(rows', ws[1..], id);
      }
    }
  }

  // ---- what the writes of a run leave in a row ----

  /** The write that made the row, and, once it is resolved, the write that resolved it. */
  ghost predicate WrittenDown(r: Approval, ws: seq<Write>) {
    exists i, j :: 0 <= i < |ws| && i <= j < |ws| && MadeBy(r, ws[i])
      && if r.status == Pending then i == j && r.error == None && r.messageId == None && r.updatedAt == ws[i].now
         else i < j && ResolvedBy(r, ws[j])
  }

  predicate MadeBy(r: Approval, w: Write) {
    && w.Create? && w.a.id == r.id && w.a.conversationId == r.conversationId && w.a.body == r.body
    && w.a.replyToId == r.replyToId && w.a.requestedBy == r.requestedBy && w.now == r.createdAt
  }

  predicate ResolvedBy(r: Approval, w: Write) {
    && w.Resolve? && w.id == r.id && w.status == r.status && w.error == r.error && w.messageId == r.messageId
    && w.now == r.updatedAt
  }

  lemma WrittenDownMore(r: Approval, ws: seq<Write>, w: Write)
    requires WrittenDown(r, ws)
    ensures WrittenDown(r, ws + [w])
    ensures r.status == Pending ==>
      forall t: Approval :: t.id == r.id && ResolvedBy(t, w) && t.status != Pending && SameRequest(r, t) ==> WrittenDown(t, ws + [w])
  {
    var i, j :| 0 <= i < |ws| && i <= j < |ws| && MadeBy(r, ws[i])
      && if r.status == Pending then i == j && r.error == None && r.messageId == None && r.updatedAt == ws[i].now
         else i < j && ResolvedBy(r, ws[j]);
    var all := ws + [w];
    assert all[i] == ws[i] && all[j] == ws[j] && all[|ws|] == w;
    assert WrittenDown(r, all);
    if r.status == Pending {
      forall t: Approval | t.id == r.id && ResolvedBy(t, w) && t.status != Pending && SameRequest(r, t) ensures WrittenDown(t, all) {
        assert MadeBy(t, all[i]) && ResolvedBy(t, all[|ws|]);
      }
    }
  }

  lemma {:induction false} RunSnoc(rows: Rows, ws: seq<Write>, w: Write)
    ensures Run(rows, ws + [w]) == Apply(Run(rows, ws), w).0
    decreases |ws|
  {
    hide Created, Resolved;
    if ws == [] {
      assert [w][1..] == [];
    } else {
      assert (ws + [w])[1..] == ws[1..] + [w];
      RunSnoc(Apply(rows, ws[0]).0, ws[1..], w);
    }
  }

  /** After any writes, a row that was not there before says what its one insert asked for,
      and when; and once resolved, what its one resolve said, and when. */
  lemma {:induction false} RowsSayWhatWasWritten(rows: Rows, ws: seq<Write>, id: string)
    requires id !in rows
    ensures var t := Run(rows, ws); id in t ==> t[id].id == id && WrittenDown(t[id], ws)
    decreases |ws|
  {
    if ws != [] {
      var n := |ws| - 1;
      var before, w := Run(rows, ws[..n]), ws[n];
      assert ws == ws[..n] + [w];
      RowsSayWhatWasWritten(rows, ws[..n], id);
      RunSnoc(rows, ws[..n], w);
      var t := Run(rows, ws);
      if id in before {
        hide WrittenDown;
        WrittenDownMore(before[id], ws[..n], w);
      } else if id in t {
        assert MadeBy(t[id], ws[n]);
      }
    }
  }
}
